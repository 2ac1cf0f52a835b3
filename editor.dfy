/**
 * The pointer-interaction controller of the preview (frontend/src/App.js):
 * drag, corner resize, wheel resize and rotation of the text, the emoji and
 * the overlay images, the global mouse-up that ends a gesture, and the
 * request `generateIcon` assembles from the editor's state.
 *
 * Pointer events arrive as client coordinates; `origin` is the top-left of
 * the preview area and `imageOrigin` that of the base image, both in client
 * coordinates (what getBoundingClientRect reports).
 */
module Editor {
  import opened Wrappers
  import opened Geometry
  import opened Overlays

  /** The form fields the preview reads. */
  datatype Form = Form(text: string, emoji: string, fontSize: real, emojiSize: real, textColor: string)

  /** Which of text and emoji the last press picked (`activeElement`). */
  datatype Element = NoElement | TextElement | EmojiElement

  /** What a rotation gesture turns (`rotatingElement`; NotRotating is `null`). */
  datatype Rotating = NotRotating | RotatingText | RotatingEmoji | RotatingOverlay(index: int)

  /** The branch of handleMouseMove a pointer move takes. */
  datatype Gesture = NoGesture | OverlayDrag | OverlayResize | ElementDrag | ElementResize

  /** calculateTextBounds: a square for the emoji, else the text line heuristic over `text.length`. */
  function CalculateTextBounds(f: Form): (b: Bounds)
    ensures f.emoji != "" ==> b == Bounds(f.emojiSize, f.emojiSize)
    ensures f.emoji == "" ==> b == TextLineBounds(Utf16Length(f.text), f.fontSize)
  {
    if f.emoji != "" then Bounds(f.emojiSize, f.emojiSize) else TextLineBounds(Utf16Length(f.text), f.fontSize)
  }

  /** The emoji takes precedence: with an emoji present its square bounds are used whatever the text. */
  lemma EmojiBoundsAreSquare(f: Form)
    requires f.emoji != ""
    ensures CalculateTextBounds(f).width == CalculateTextBounds(f).height == f.emojiSize
  {
  }

  /** The pointer in preview coordinates. */
  function Local(client: Point, origin: Point): Point
  {
    Point(client.x - origin.x, client.y - origin.y)
  }

  /** The offset a press records: where the element was grabbed, relative to its centre. */
  function GrabOffset(pointer: Point, center: Point): Point
  {
    Point(pointer.x - center.x, pointer.y - center.y)
  }

  /** Where a drag puts the centre: `pointer - dragOffset`. */
  function DragTarget(pointer: Point, offset: Point): Point
  {
    Point(pointer.x - offset.x, pointer.y - offset.y)
  }

  /** A drag keeps the grabbed point under the pointer: the centre moves by exactly the pointer's displacement. */
  lemma DragFollowsPointer(center: Point, grab: Point, pointer: Point)
    ensures DragTarget(pointer, GrabOffset(grab, center))
         == Point(center.x + (pointer.x - grab.x), center.y + (pointer.y - grab.y))
    ensures DragTarget(grab, GrabOffset(grab, center)) == center
  {
  }

  /**
   * The form after a corner-handle drag worth `delta` from a start size of
   * `initialSize`: an emoji, if any, is resized; otherwise a text has its
   * font size changed by a third of the delta.
   */
  function ResizeForm(f: Form, initialSize: real, delta: real): (g: Form)
    ensures g.text == f.text && g.emoji == f.emoji && g.textColor == f.textColor
    ensures f.emoji != "" ==>
              g.fontSize == f.fontSize && g.emojiSize == Clamp(MinElementSize, MaxElementSize, initialSize + delta)
    ensures f.emoji == "" && f.text != "" ==>
              g.emojiSize == f.emojiSize && g.fontSize == Clamp(MinFontSize, MaxFontSize, initialSize + delta / FontSizeDamping)
    ensures f.emoji == "" && f.text == "" ==> g == f
  {
    if f.emoji != "" then f.(emojiSize := Clamp(MinElementSize, MaxElementSize, initialSize + delta))
    else if f.text != "" then f.(fontSize := Clamp(MinFontSize, MaxFontSize, initialSize + delta / FontSizeDamping))
    else f
  }

  /** The wheel's step: down (positive deltaY) shrinks by 5, anything else grows by 5. */
  function WheelDelta(deltaY: real): (d: real)
    ensures d == WheelStep || d == -WheelStep
    ensures d < 0.0 <==> deltaY > 0.0
  {
    if deltaY > 0.0 then -WheelStep else WheelStep
  }

  /** handleWheelOnTextOverlay's form update: the emoji if any, else the text, steps by 5 within its limits. */
  function WheelForm(f: Form, deltaY: real): (g: Form)
    ensures g.text == f.text && g.emoji == f.emoji && g.textColor == f.textColor
    ensures f.emoji != "" ==> g.fontSize == f.fontSize && MinElementSize <= g.emojiSize <= MaxElementSize
    ensures f.emoji == "" && f.text != "" ==> g.emojiSize == f.emojiSize && MinFontSize <= g.fontSize <= MaxFontSize
    ensures f.emoji == "" && f.text == "" ==> g == f
    // away from the limits a tick changes the size by exactly five
    ensures (f.emoji != "" && MinElementSize <= f.emojiSize + WheelDelta(deltaY) <= MaxElementSize) ==>
              g.emojiSize == f.emojiSize + WheelDelta(deltaY)
    ensures (f.emoji == "" && f.text != "" && MinFontSize <= f.fontSize + WheelDelta(deltaY) <= MaxFontSize) ==>
              g.fontSize == f.fontSize + WheelDelta(deltaY)
  {
    var d := WheelDelta(deltaY);
    if f.emoji != "" then f.(emojiSize := Clamp(MinElementSize, MaxElementSize, f.emojiSize + d))
    else if f.text != "" then f.(fontSize := Clamp(MinFontSize, MaxFontSize, f.fontSize + d))
    else f
  }

  /** Away from the limits a wheel tick up followed by a tick down restores the form. */
  lemma WheelUpThenDown(f: Form)
    requires f.emoji != "" ==> MinElementSize <= f.emojiSize <= MaxElementSize - WheelStep
    requires f.emoji == "" && f.text != "" ==> MinFontSize <= f.fontSize <= MaxFontSize - WheelStep
    ensures WheelForm(WheelForm(f, -1.0), 1.0) == f
  {
    var g := WheelForm(f, -1.0);
    if f.emoji != "" {
      assert g.emojiSize == f.emojiSize + WheelStep;
    } else if f.text != "" {
      assert g.fontSize == f.fontSize + WheelStep;
    }
  }

  /** Text fields of the request: strings sent as is, coordinates and size scaled to the image's pixels and rounded. */
  datatype TextRequest = TextRequest(text: string, x: int, y: int, fontSize: int, color: string, rotation: int)
  datatype EmojiRequest = EmojiRequest(emoji: string, x: int, y: int, size: int, rotation: int)
  datatype OverlayRequest = OverlayRequest(x: int, y: int, width: int, height: int, opacity: real, rotation: int)

  /** The fields generateIcon posts (the uploaded files themselves are not modelled). */
  datatype IconRequest = IconRequest(
    text: Option<TextRequest>,
    emoji: Option<EmojiRequest>,
    sendsDrawing: bool,
    overlays: seq<OverlayRequest>)

  /** The alert generateIcon shows instead of posting. */
  const NothingToGenerate: string := "no text, emoji, drawing or overlay"

  function ScaleOverlay(o: Overlay, scale: real): (r: OverlayRequest)
    ensures r.x == RoundHalfUp(o.x * scale) && r.y == RoundHalfUp(o.y * scale)
    ensures r.width == RoundHalfUp(o.width * scale) && r.height == RoundHalfUp(o.height * scale)
    ensures r.opacity == o.opacity && r.rotation == o.rotation
  {
    OverlayRequest(RoundHalfUp(o.x * scale), RoundHalfUp(o.y * scale),
                   RoundHalfUp(o.width * scale), RoundHalfUp(o.height * scale), o.opacity, o.rotation)
  }

  function ScaleOverlays(s: seq<Overlay>, scale: real): (r: seq<OverlayRequest>)
    ensures |r| == |s|
    ensures forall i :: 0 <= i < |s| ==> r[i] == ScaleOverlay(s[i], scale)
  {
    seq(|s|, i requires 0 <= i < |s| => ScaleOverlay(s[i], scale))
  }

  class PreviewEditor {
    var form: Form
    var textPos: Point
    var emojiPos: Point
    var textRotation: int
    var emojiRotation: int
    var activeElement: Element
    var previewMode: bool
    var isDragging: bool
    var isResizing: bool
    var isOverlayDragging: bool
    var isOverlayResizing: bool
    var isRotating: bool
    var resizeDirection: string
    var dragOffset: Point
    var initialSize: real
    var initialMousePos: Point
    var textBounds: Bounds
    /** Natural width of the base image over its displayed width. */
    var imageScale: real
    var overlays: seq<Overlay>
    var selectedOverlay: int
    var rotatingElement: Rotating
    var initialAngle: real
    var rotationCenter: Point

    /** The selection names an entry or nothing, and every entry kept its natural size. */
    predicate Valid()
      reads this
    {
      ValidSelection(selectedOverlay, |overlays|) && AllHaveNaturalSize(overlays)
    }

    /** No gesture of any kind is in progress. */
    predicate Idle()
      reads this
    {
      !isDragging && !isResizing && !isOverlayDragging && !isOverlayResizing && !isRotating
    }

    /** How many of the five gesture flags are set. */
    function ActiveFlags(): nat
      reads this
    {
      (if isDragging then 1 else 0) + (if isResizing then 1 else 0)
      + (if isOverlayDragging then 1 else 0) + (if isOverlayResizing then 1 else 0)
      + (if isRotating then 1 else 0)
    }

    /** The if/else chain of handleMouseMove over the current flags. */
    function CurrentGesture(): Gesture
      reads this
    {
      if isOverlayDragging && selectedOverlay >= 0 then OverlayDrag
      else if isOverlayResizing && selectedOverlay >= 0 then OverlayResize
      else if isDragging then ElementDrag
      else if isResizing then ElementResize
      else NoGesture
    }

    /** The component's initial state. */
    constructor ()
      ensures Valid() && Idle() && !previewMode
      ensures form == Form("", "", 48.0, 164.0, "#ffffff")
      ensures textPos == Point(260.0, 100.0) && emojiPos == Point(260.0, 180.0)
      ensures textRotation == 0 && emojiRotation == 0 && activeElement == NoElement
      ensures overlays == [] && selectedOverlay == -1 && rotatingElement == NotRotating
      ensures resizeDirection == "" && imageScale == 1.0 && textBounds == Bounds(0.0, 0.0)
    {
      form := Form("", "", 48.0, 164.0, "#ffffff");
      textPos := Point(260.0, 100.0);
      emojiPos := Point(260.0, 180.0);
      textRotation := 0;
      emojiRotation := 0;
      activeElement := NoElement;
      previewMode := false;
      isDragging := false;
      isResizing := false;
      isOverlayDragging := false;
      isOverlayResizing := false;
      isRotating := false;
      resizeDirection := "";
      dragOffset := Point(0.0, 0.0);
      initialSize := 0.0;
      initialMousePos := Point(0.0, 0.0);
      textBounds := Bounds(0.0, 0.0);
      imageScale := 1.0;
      overlays := [];
      selectedOverlay := -1;
      rotatingElement := NotRotating;
      initialAngle := 0.0;
      rotationCenter := Point(0.0, 0.0);
    }

    /** startPreview: bounds for any text or emoji, no selected overlay, preview on. */
    method StartPreview()
      requires Valid()
      modifies this`textBounds, this`selectedOverlay, this`previewMode
      ensures Valid() && previewMode && selectedOverlay == -1
      ensures form.text != "" || form.emoji != "" ==> textBounds == CalculateTextBounds(form)
      ensures form.text == "" && form.emoji == "" ==> textBounds == old(textBounds)
    {
      if form.text != "" || form.emoji != "" {
        textBounds := CalculateTextBounds(form);
      }
      selectedOverlay := -1;
      previewMode := true;
    }

    /** An upload of an `imgWidth` x `imgHeight` image appends an overlay and selects it. */
    method AddOverlay(id: int, imgWidth: real, imgHeight: real)
      requires Valid()
      requires imgWidth > 0.0 && imgHeight > 0.0
      modifies this`overlays, this`selectedOverlay
      ensures Valid()
      ensures overlays == old(overlays) + [NewOverlay(id, imgWidth, imgHeight)]
      ensures selectedOverlay == |old(overlays)| && overlays[selectedOverlay] == NewOverlay(id, imgWidth, imgHeight)
    {
      selectedOverlay := |overlays|;
      overlays := overlays + [NewOverlay(id, imgWidth, imgHeight)];
    }

    /** removeOverlayImage, reached from the remove button of entry `index`. */
    method RemoveOverlay(index: int)
      requires Valid()
      requires 0 <= index < |overlays|
      modifies this`overlays, this`selectedOverlay
      ensures Valid()
      ensures overlays == RemoveAt(old(overlays), index)
      ensures selectedOverlay == SelectionAfterRemove(old(selectedOverlay), index)
      ensures old(selectedOverlay) >= 0 && old(selectedOverlay) != index ==>
                overlays[selectedOverlay] == old(overlays)[old(selectedOverlay)]
    {
      RemovalKeepsSelectedEntry(overlays, selectedOverlay, index);
      ListOperationsKeepNaturalSize(overlays, index, SetX(0.0));
      var sel := SelectionAfterRemove(selectedOverlay, index);
      overlays := RemoveAt(overlays, index);
      selectedOverlay := sel;
    }

    /** updateOverlayImage. */
    method UpdateOverlay(index: int, u: OverlayUpdate)
      requires Valid()
      modifies this`overlays
      ensures Valid()
      ensures overlays == UpdateAt(old(overlays), index, u)
    {
      ListOperationsKeepNaturalSize(overlays, index, u);
      overlays := UpdateAt(overlays, index, u);
    }

    /**
     * The text or emoji container's mouse-down: it becomes the active
     * element, and in preview a drag starts (clearing a resize), remembering
     * where the element was grabbed.
     */
    method PressElement(which: Element, client: Point, origin: Point)
      requires Valid()
      requires which != NoElement
      modifies this`activeElement, this`isDragging, this`isResizing, this`dragOffset, this`initialMousePos
      ensures Valid()
      ensures activeElement == which
      ensures !previewMode ==> isDragging == old(isDragging) && isResizing == old(isResizing)
                               && dragOffset == old(dragOffset) && initialMousePos == old(initialMousePos)
      ensures previewMode ==> isDragging && !isResizing && initialMousePos == client
      ensures previewMode && which == TextElement ==> dragOffset == GrabOffset(Local(client, origin), textPos)
      ensures previewMode && which == EmojiElement ==> dragOffset == GrabOffset(Local(client, origin), emojiPos)
      ensures previewMode && old(Idle()) ==> ActiveFlags() == 1
    {
      activeElement := which;
      if !previewMode {
        return;
      }
      isDragging := true;
      isResizing := false;
      if which == TextElement {
        dragOffset := GrabOffset(Local(client, origin), textPos);
      } else {
        dragOffset := GrabOffset(Local(client, origin), emojiPos);
      }
      initialMousePos := client;
    }

    /** handleResizeMouseDown: a text/emoji resize starts from the current emoji size, else font size. */
    method PressResizeHandle(direction: string, client: Point)
      requires Valid()
      modifies this`textBounds, this`isResizing, this`isDragging, this`resizeDirection,
               this`initialMousePos, this`initialSize
      ensures Valid()
      ensures !previewMode ==> isResizing == old(isResizing) && isDragging == old(isDragging)
                               && textBounds == old(textBounds) && resizeDirection == old(resizeDirection)
                               && initialMousePos == old(initialMousePos) && initialSize == old(initialSize)
      ensures previewMode ==> isResizing && !isDragging && resizeDirection == direction
                              && initialMousePos == client && textBounds == CalculateTextBounds(form)
      ensures previewMode ==> initialSize == if form.emoji != "" then form.emojiSize else form.fontSize
      ensures previewMode && old(Idle()) ==> ActiveFlags() == 1
    {
      if !previewMode {
        return;
      }
      textBounds := CalculateTextBounds(form);
      isResizing := true;
      isDragging := false;
      resizeDirection := direction;
      initialMousePos := client;
      initialSize := if form.emoji != "" then form.emojiSize else form.fontSize;
    }

    /** handleOverlayMouseDown: select overlay `index` and start dragging it. */
    method PressOverlay(index: int, client: Point, origin: Point)
      requires Valid()
      requires 0 <= index < |overlays|
      modifies this`selectedOverlay, this`isOverlayDragging, this`isOverlayResizing, this`dragOffset
      ensures Valid()
      ensures !previewMode ==> selectedOverlay == old(selectedOverlay) && isOverlayDragging == old(isOverlayDragging)
                               && isOverlayResizing == old(isOverlayResizing) && dragOffset == old(dragOffset)
      ensures previewMode ==> selectedOverlay == index && isOverlayDragging && !isOverlayResizing
      ensures previewMode ==> dragOffset == GrabOffset(Local(client, origin), Point(overlays[index].x, overlays[index].y))
      ensures previewMode && old(Idle()) ==> ActiveFlags() == 1 && CurrentGesture() == OverlayDrag
    {
      if !previewMode {
        return;
      }
      selectedOverlay := index;
      isOverlayDragging := true;
      isOverlayResizing := false;
      dragOffset := GrabOffset(Local(client, origin), Point(overlays[index].x, overlays[index].y));
    }

    /** handleOverlayResizeMouseDown: select overlay `index` and start resizing it from its width. */
    method PressOverlayHandle(index: int, direction: string, client: Point)
      requires Valid()
      requires 0 <= index < |overlays|
      modifies this`selectedOverlay, this`isOverlayResizing, this`isOverlayDragging, this`resizeDirection,
               this`initialMousePos, this`initialSize
      ensures Valid()
      ensures !previewMode ==> selectedOverlay == old(selectedOverlay) && isOverlayDragging == old(isOverlayDragging)
                               && isOverlayResizing == old(isOverlayResizing) && resizeDirection == old(resizeDirection)
                               && initialMousePos == old(initialMousePos) && initialSize == old(initialSize)
      ensures previewMode ==> selectedOverlay == index && isOverlayResizing && !isOverlayDragging
                              && resizeDirection == direction && initialMousePos == client
                              && initialSize == overlays[index].width
      ensures previewMode && old(Idle()) ==> ActiveFlags() == 1 && CurrentGesture() == OverlayResize
    {
      if !previewMode {
        return;
      }
      selectedOverlay := index;
      isOverlayResizing := true;
      isOverlayDragging := false;
      resizeDirection := direction;
      initialMousePos := client;
      initialSize := overlays[index].width;
    }

    /** The size delta the current corner gesture asks for at pointer `client`. */
    function HandleDelta(client: Point, sensitivity: real): real
      requires sensitivity > 0.0
      reads this
    {
      CornerSizeDelta(resizeDirection, client.x - initialMousePos.x, client.y - initialMousePos.y, sensitivity)
    }

    /**
     * handleMouseMove: exactly the branch CurrentGesture names runs, and it
     * changes only its own target.
     */
    method HandleMouseMove(client: Point, origin: Point)
      requires Valid()
      modifies this`overlays, this`textPos, this`emojiPos, this`form, this`textBounds
      ensures Valid()
      ensures !previewMode || CurrentGesture() == NoGesture ==>
                overlays == old(overlays) && textPos == old(textPos) && emojiPos == old(emojiPos)
                && form == old(form) && textBounds == old(textBounds)
      ensures previewMode && CurrentGesture() == OverlayDrag ==>
                overlays == UpdateAt(old(overlays), selectedOverlay,
                                     MoveTo(DragTarget(Local(client, origin), dragOffset).x,
                                            DragTarget(Local(client, origin), dragOffset).y))
                && textPos == old(textPos) && emojiPos == old(emojiPos)
                && form == old(form) && textBounds == old(textBounds)
      ensures previewMode && CurrentGesture() == OverlayResize ==>
                overlays == UpdateAt(old(overlays), selectedOverlay,
                                     HandleResize(old(overlays)[selectedOverlay], initialSize,
                                                  HandleDelta(client, OverlaySensitivity)))
                && textPos == old(textPos) && emojiPos == old(emojiPos)
                && form == old(form) && textBounds == old(textBounds)
      ensures previewMode && CurrentGesture() == ElementDrag ==>
                overlays == old(overlays) && form == old(form) && textBounds == old(textBounds)
                && textPos == (if activeElement == TextElement then DragTarget(Local(client, origin), dragOffset)
                               else old(textPos))
                && emojiPos == (if activeElement == EmojiElement then DragTarget(Local(client, origin), dragOffset)
                                else old(emojiPos))
      ensures previewMode && CurrentGesture() == ElementResize ==>
                overlays == old(overlays) && textPos == old(textPos) && emojiPos == old(emojiPos)
                && form == ResizeForm(old(form), initialSize, HandleDelta(client, ElementSensitivity))
                && (form.emoji != "" || form.text != "" ==> textBounds == CalculateTextBounds(form))
                && (form.emoji == "" && form.text == "" ==> textBounds == old(textBounds))
    {
      if !previewMode {
        return;
      }
      if isOverlayDragging && selectedOverlay >= 0 {
        var target := DragTarget(Local(client, origin), dragOffset);
        UpdateOverlay(selectedOverlay, MoveTo(target.x, target.y));
      } else if isOverlayResizing && selectedOverlay >= 0 {
        ResizeSelectedOverlay(HandleDelta(client, OverlaySensitivity));
      } else if isDragging {
        MoveElement(DragTarget(Local(client, origin), dragOffset));
      } else if isResizing {
        ResizeElement(HandleDelta(client, ElementSensitivity));
      }
    }

    /** The overlay-resize branch of the mouse move: the selected overlay is rescaled by `delta`. */
    method ResizeSelectedOverlay(delta: real)
      requires Valid() && selectedOverlay >= 0
      modifies this`overlays
      ensures Valid()
      ensures overlays == UpdateAt(old(overlays), selectedOverlay,
                                   HandleResize(old(overlays)[selectedOverlay], initialSize, delta))
    {
      UpdateOverlay(selectedOverlay, HandleResize(overlays[selectedOverlay], initialSize, delta));
    }

    /** The element-drag branch of the mouse move: the active element moves to `target`. */
    method MoveElement(target: Point)
      modifies this`textPos, this`emojiPos
      ensures textPos == (if activeElement == TextElement then target else old(textPos))
      ensures emojiPos == (if activeElement == EmojiElement then target else old(emojiPos))
    {
      if activeElement == TextElement {
        textPos := target;
      } else if activeElement == EmojiElement {
        emojiPos := target;
      }
    }

    /** The element-resize branch of the mouse move: the emoji, else the text, is rescaled. */
    method ResizeElement(delta: real)
      modifies this`form, this`textBounds
      ensures form == ResizeForm(old(form), initialSize, delta)
      ensures form.emoji != "" || form.text != "" ==> textBounds == CalculateTextBounds(form)
      ensures form.emoji == "" && form.text == "" ==> textBounds == old(textBounds)
    {
      if form.emoji != "" {
        var size := Clamp(MinElementSize, MaxElementSize, initialSize + delta);
        form := form.(emojiSize := size);
        textBounds := Bounds(size, size);
      } else if form.text != "" {
        var size := Clamp(MinFontSize, MaxFontSize, initialSize + delta / FontSizeDamping);
        form := form.(fontSize := size);
        textBounds := TextLineBounds(Utf16Length(form.text), size);
      }
    }

    /** handleWheelOnTextOverlay: in preview the emoji, else the text, steps by five. */
    method Wheel(deltaY: real)
      requires Valid()
      modifies this`form, this`textBounds
      ensures Valid()
      ensures !previewMode ==> form == old(form) && textBounds == old(textBounds)
      ensures previewMode ==> form == WheelForm(old(form), deltaY)
      ensures previewMode && (form.emoji != "" || form.text != "") ==> textBounds == CalculateTextBounds(form)
      ensures previewMode && form.emoji == "" && form.text == "" ==> textBounds == old(textBounds)
    {
      if !previewMode {
        return;
      }
      var delta := WheelDelta(deltaY);
      if form.emoji != "" {
        var size := Clamp(MinElementSize, MaxElementSize, form.emojiSize + delta);
        form := form.(emojiSize := size);
        textBounds := Bounds(size, size);
      } else if form.text != "" {
        var size := Clamp(MinFontSize, MaxFontSize, form.fontSize + delta);
        form := form.(fontSize := size);
        textBounds := TextLineBounds(Utf16Length(form.text), size);
      }
    }

    /** The centre and current rotation of a rotatable element. */
    function RotationSubject(target: Rotating): (Point, real)
      requires target != NotRotating
      requires target.RotatingOverlay? ==> 0 <= target.index < |overlays|
      reads this
    {
      match target
      case RotatingText => (textPos, textRotation as real)
      case RotatingEmoji => (emojiPos, emojiRotation as real)
      case RotatingOverlay(i) => (Point(overlays[i].x, overlays[i].y), overlays[i].rotation as real)
    }

    /**
     * handleRotationStart: the gesture remembers the element's centre and
     * the pointer angle minus the element's rotation, so that the rotation
     * is unchanged until the pointer turns.
     */
    method RotationStart(target: Rotating, client: Point, imageOrigin: Point, angleOf: (real, real) -> real)
      requires Valid()
      requires target != NotRotating
      requires target.RotatingOverlay? ==> 0 <= target.index < |overlays|
      modifies this`isRotating, this`rotatingElement, this`initialAngle, this`rotationCenter
      ensures Valid()
      ensures isRotating && rotatingElement == target
      ensures rotationCenter == RotationSubject(target).0
      ensures initialAngle == CalculateAngle(angleOf, rotationCenter, Local(client, imageOrigin)) - RotationSubject(target).1
      ensures old(Idle()) ==> ActiveFlags() == 1
    {
      var (center, current) := RotationSubject(target);
      var angle := CalculateAngle(angleOf, center, Local(client, imageOrigin));
      isRotating := true;
      rotatingElement := target;
      initialAngle := angle - current;
      rotationCenter := center;
    }

    /** The rotation a move to `client` asks for, before normalisation. */
    function RawRotation(client: Point, imageOrigin: Point, angleOf: (real, real) -> real): real
      reads this
    {
      CalculateAngle(angleOf, rotationCenter, Local(client, imageOrigin)) - initialAngle
    }

    /**
     * handleRotationMove: the raw rotation is brought into [-180, 180] by the
     * two loops, rounded, and stored on the element being turned.
     */
    method RotationMove(client: Point, imageOrigin: Point, angleOf: (real, real) -> real)
      requires Valid()
      modifies this`textRotation, this`emojiRotation, this`overlays
      ensures Valid()
      ensures var r := RoundHalfUp(NormalizedAngle(RawRotation(client, imageOrigin, angleOf)));
        && -180 <= r <= 180
        && (isRotating && rotatingElement == RotatingText ==> textRotation == r)
        && (isRotating && rotatingElement == RotatingEmoji ==> emojiRotation == r)
        && (isRotating && rotatingElement.RotatingOverlay? ==>
              overlays == UpdateAt(old(overlays), rotatingElement.index, SetRotation(r)))
        && (!(isRotating && rotatingElement == RotatingText) ==> textRotation == old(textRotation))
        && (!(isRotating && rotatingElement == RotatingEmoji) ==> emojiRotation == old(emojiRotation))
        && (!(isRotating && rotatingElement.RotatingOverlay?) ==> overlays == old(overlays))
    {
      NormalizedAngleSpec(RawRotation(client, imageOrigin, angleOf));
      if !isRotating {
        return;
      }
      var raw := RawRotation(client, imageOrigin, angleOf);
      var rotation := raw;
      while rotation > 180.0
        invariant NormalizedAngle(rotation) == NormalizedAngle(raw)
        decreases OutOfRange(rotation)
      {
        rotation := rotation - 360.0;
      }
      while rotation < -180.0
        invariant rotation <= 180.0
        invariant NormalizedAngle(rotation) == NormalizedAngle(raw)
        decreases OutOfRange(rotation)
      {
        rotation := rotation + 360.0;
      }
      var rounded := RoundHalfUp(rotation);
      match rotatingElement {
        case RotatingText => textRotation := rounded;
        case RotatingEmoji => emojiRotation := rounded;
        case RotatingOverlay(i) => UpdateOverlay(i, SetRotation(rounded));
        case NotRotating =>
      }
    }

    /** handleRotationEnd. */
    method RotationEnd()
      requires Valid()
      modifies this`isRotating, this`rotatingElement, this`initialAngle, this`rotationCenter
      ensures Valid()
      ensures !isRotating && rotatingElement == NotRotating && initialAngle == 0.0 && rotationCenter == Point(0.0, 0.0)
    {
      isRotating := false;
      rotatingElement := NotRotating;
      initialAngle := 0.0;
      rotationCenter := Point(0.0, 0.0);
    }

    /**
     * The document mouse-up listener, attached only in preview while a
     * gesture is on: it resynchronises the bounds and ends every drag and
     * resize, and ends a rotation; the overlay selection is kept.
     */
    method GlobalPointerUp()
      requires Valid()
      modifies this`textBounds, this`isDragging, this`isResizing, this`isOverlayDragging, this`isOverlayResizing,
               this`resizeDirection, this`isRotating, this`rotatingElement, this`initialAngle, this`rotationCenter
      ensures Valid()
      ensures selectedOverlay == old(selectedOverlay)
      ensures previewMode ==> Idle()
      ensures !previewMode ==> ActiveFlags() == old(ActiveFlags()) && textBounds == old(textBounds)
      ensures previewMode && old(isDragging || isResizing || isOverlayDragging || isOverlayResizing) ==>
                textBounds == CalculateTextBounds(form) && resizeDirection == ""
      ensures !old(isDragging || isResizing || isOverlayDragging || isOverlayResizing) ==>
                textBounds == old(textBounds) && resizeDirection == old(resizeDirection)
      ensures previewMode && old(isRotating) ==> rotatingElement == NotRotating
    {
      if !previewMode || Idle() {
        return;
      }
      if isDragging || isResizing || isOverlayDragging || isOverlayResizing {
        textBounds := CalculateTextBounds(form);
        isDragging := false;
        isResizing := false;
        isOverlayDragging := false;
        isOverlayResizing := false;
        resizeDirection := "";
      }
      if isRotating {
        RotationEnd();
      }
    }

    /** A click on the preview background outside drawing mode clears the overlay selection. */
    method BackgroundClick(drawingMode: bool)
      requires Valid()
      modifies this`selectedOverlay
      ensures Valid()
      ensures drawingMode ==> selectedOverlay == old(selectedOverlay)
      ensures !drawingMode ==> selectedOverlay == -1
    {
      if !drawingMode {
        selectedOverlay := -1;
      }
    }

    /**
     * generateIcon's content check and field scaling. `canvasPresent` says
     * the drawing canvas is mounted and `historyLength` is the number of
     * drawing snapshots.
     */
    function Request(canvasPresent: bool, historyLength: nat, drawingMode: bool): (r: Result<IconRequest, string>)
      reads this
      // refused exactly when there is nothing at all to draw
      ensures r.Err? <==> (form.text == "" && form.emoji == "" && !(canvasPresent && historyLength > 1) && |overlays| == 0)
      ensures r.Ok? ==> (r.value.text.Some? <==> form.text != "") && (r.value.emoji.Some? <==> form.emoji != "")
      ensures r.Ok? && form.text != "" ==>
                r.value.text.value.text == form.text && r.value.text.value.color == form.textColor
                && r.value.text.value.x == RoundHalfUp(textPos.x * imageScale)
                && r.value.text.value.y == RoundHalfUp(textPos.y * imageScale)
                && r.value.text.value.fontSize == RoundHalfUp(form.fontSize * imageScale)
                && r.value.text.value.rotation == textRotation
      ensures r.Ok? && form.emoji != "" ==>
                r.value.emoji.value.emoji == form.emoji
                && r.value.emoji.value.x == RoundHalfUp(emojiPos.x * imageScale)
                && r.value.emoji.value.y == RoundHalfUp(emojiPos.y * imageScale)
                && r.value.emoji.value.size == RoundHalfUp(form.emojiSize * imageScale)
                && r.value.emoji.value.rotation == emojiRotation
      ensures r.Ok? ==> r.value.sendsDrawing == (canvasPresent && drawingMode)
      ensures r.Ok? ==> r.value.overlays == ScaleOverlays(overlays, imageScale)
    {
      var hasDrawing := canvasPresent && historyLength > 1;
      if form.text == "" && form.emoji == "" && !hasDrawing && |overlays| == 0 then
        Err(NothingToGenerate)
      else
        var text := if form.text != "" then
          Some(TextRequest(form.text, RoundHalfUp(textPos.x * imageScale), RoundHalfUp(textPos.y * imageScale),
                           RoundHalfUp(form.fontSize * imageScale), form.textColor, textRotation))
        else None;
        var emoji := if form.emoji != "" then
          Some(EmojiRequest(form.emoji, RoundHalfUp(emojiPos.x * imageScale), RoundHalfUp(emojiPos.y * imageScale),
                            RoundHalfUp(form.emojiSize * imageScale), emojiRotation))
        else None;
        Ok(IconRequest(text, emoji, canvasPresent && drawingMode, ScaleOverlays(overlays, imageScale)))
    }

    /**
     * The content check counts a drawing the request does not carry: with
     * drawing mode switched off after drawing, and nothing else, the check
     * passes yet the request holds no content.
     */
    lemma DrawingCountedButNotSent(historyLength: nat)
      requires form.text == "" && form.emoji == "" && |overlays| == 0 && historyLength > 1
      ensures Request(true, historyLength, false).Ok?
      ensures Request(true, historyLength, false).value == IconRequest(None, None, false, [])
    {
    }
  }

  /** With both a text and an emoji, a text handle drag resizes the emoji and leaves the font size alone. */
  lemma TextHandleResizesEmoji(f: Form, initialSize: real, delta: real)
    requires f.text != "" && f.emoji != ""
    ensures ResizeForm(f, initialSize, delta).fontSize == f.fontSize
    ensures ResizeForm(f, initialSize, delta).emojiSize == Clamp(MinElementSize, MaxElementSize, initialSize + delta)
  {
  }

  /** The resized sizes always lie within their limits. */
  lemma ResizeStaysInRange(f: Form, initialSize: real, delta: real)
    ensures f.emoji != "" ==> MinElementSize <= ResizeForm(f, initialSize, delta).emojiSize <= MaxElementSize
    ensures f.emoji == "" && f.text != "" ==> MinFontSize <= ResizeForm(f, initialSize, delta).fontSize <= MaxFontSize
  {
  }
}
