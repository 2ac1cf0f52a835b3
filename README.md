# Hirsakam icon generator — a Dafny model

The Hirsakam icon generator lets a user dress up one base photograph with text, an emoji,
freehand drawing and uploaded overlay images, and then have a backend render the result.

This project models the core of the three programs involved:

- **The preview editor** (`frontend/src/App.js`). This is a single component whose state is
  updated step by step by mouse, wheel and form events. The element drag and resize
  gestures, rotation with angle normalisation, the wheel, the overlay list (add, update,
  remove, selection), the global mouse-up and the background click are modelled as the
  class `Editor.PreviewEditor`. The drawing canvas with its undo/redo history is the class
  `Drawing.DrawingSurface`. The request that "Generate" sends is modelled too: its
  no-content check, its fields and how overlays are scaled. `TypedSize` models the size
  fields as the source holds them once a size has been typed: the number input's string,
  which JavaScript's `+` concatenates with the step.
- **The generate endpoint** (`backend/app.py`). The layer order is read from the form,
  falling back to a default. `process_layer` is folded over that order. Then the no-content
  check runs, the drawing is composited last, and errors are mapped to status codes. This is
  `Layers`; the hex colour parser is `HexColour`.
- **The gallery endpoint** (`backend/app.py`). It filters the listing for image files,
  sorts them stably by creation time in either direction, and strips the timestamps. This
  is `Gallery`.
- **The generator** (`backend/hirsakam_icon_generator.py`). The model covers:
  - Japanese-text detection (`JapaneseText`);
  - the rotate-then-flip transform order, pasting arithmetic, multi-line text layout and
    crop clamping (`Placement`);
  - the two-pass cleaning of a downloaded emoji image: background colour detection, the
    alpha thresholds and re-binarisation after the resize (`EmojiPixels`).

Numbers the source keeps as JavaScript or Python floats are `real`s here. Python's `int()`
(truncation toward zero), `//` (floor division), `Math.round` (half up) and `Math.ceil` are
written out explicitly. Collaborators the model cannot see are parameters:

- the font measurer (`measure: string -> nat`);
- the PIL resize;
- `Math.atan2` (`angleOf`);
- `json.loads` and the base64 check (`Codecs`);
- a directory listing (`Listing`).

## Model

| member | source | states |
|---|---|---|
| Drawing.EmptyHistory | frontend/src/App.js:41-42 | the initial history is empty and well formed (index -1) |
| Drawing.SlicePrefix | frontend/src/App.js:373 | JavaScript `slice(0, end)` semantics, including ends past the length and negative ends |
| Drawing.Save | frontend/src/App.js:353-382 | the new snapshot is current and last (nothing to redo), the history stays well formed, and the entries up to the old current one are kept |
| Drawing.Undo | frontend/src/App.js:384-390 | the entries are unchanged; the index steps back by one exactly when it is above 0 and there is more than one entry, and stays otherwise |
| Drawing.Redo | frontend/src/App.js:392-398 | the entries are unchanged; the index steps forward by one exactly when a later entry exists, and stays otherwise |
| Drawing.CommitStroke | frontend/src/App.js:574-604 | the drawn snapshot is current and last; the first stroke records the blank before it |
| Drawing.SaveSpec | frontend/src/App.js:353-382 | saving keeps the entries up to the current index, appends the snapshot, makes it current and keeps the history well formed |
| Drawing.SaveClearsRedo | frontend/src/App.js:373 | after a save there is nothing to redo |
| Drawing.UndoRedoKeepValid | frontend/src/App.js:384-398 | undo and redo move only the index and keep the history well formed |
| Drawing.RedoUndoes | frontend/src/App.js:384-398 | redo returns to where an undo that moved started |
| Drawing.UndoRedoes | frontend/src/App.js:384-398 | undo returns to where a redo that moved started, when that was a real entry |
| Drawing.UndoRedoGuards | frontend/src/App.js:384-398 | on a well-formed history undo moves exactly when the index is above 0 (the length test is implied) and redo exactly when a later entry exists |
| Drawing.UndoStopsAtFirst | frontend/src/App.js:384-390 | undo at the first entry changes nothing |
| Drawing.CommitMakesDrawing | frontend/src/App.js:574-604 | finishing a stroke leaves the drawn snapshot current and counts as a drawing (more than one entry) |
| Drawing.ClearAloneIsNoDrawing | frontend/src/App.js:479-486 | clearing a fresh canvas records one entry, which does not count as a drawing |
| Drawing.CommitAllAppends | frontend/src/App.js:488-604 | a series of strokes appends their snapshots after the current entry, in order |
| Drawing.StrokesAfterReset | frontend/src/App.js:311-351 | after the canvas is reset, the history is the blank followed by the strokes |
| Drawing.DrawingSurface.constructor | frontend/src/App.js:36-43 | initial canvas state: empty history, size 0, not drawing, not ready |
| Drawing.DrawingSurface.InitializeCanvas | frontend/src/App.js:311-351 | an unmounted canvas is marked not ready; a zero-sized client changes nothing; otherwise the canvas takes the client size, shows the blank, resets the history and becomes ready |
| Drawing.DrawingSurface.SaveToHistory | frontend/src/App.js:353-382 | a zero-sized canvas saves nothing; otherwise the new history is `Save` of the old one and the shown image is current |
| Drawing.DrawingSurface.UndoStep | frontend/src/App.js:384-412 | the history becomes `Undo` of the old one: under the guard the index steps back by one and that entry is shown, otherwise nothing changes |
| Drawing.DrawingSurface.RedoStep | frontend/src/App.js:392-412 | the history becomes `Redo` of the old one: under the guard the index steps forward by one and that entry is shown, otherwise nothing changes |
| Drawing.DrawingSurface.Clear | frontend/src/App.js:479-486 | shows the blank and saves it when the canvas has a size |
| Drawing.DrawingSurface.BeginStroke | frontend/src/App.js:488-556 | a stroke starts only on a ready, sized canvas in drawing mode; the first stroke saves the blank first |
| Drawing.DrawingSurface.Paint | frontend/src/App.js:558-572 | paints only while a stroke is in progress in drawing mode |
| Drawing.DrawingSurface.EndStroke | frontend/src/App.js:574-604 | ending a stroke stops drawing and saves the shown image when the canvas has a size |
| Drawing.DrawingSurface.SetDrawingMode | frontend/src/App.js:1110-1136 | the toggle itself keeps the history; in the preview the canvas is remounted blank at the default size and must be initialised again, and that initialisation (`InitializeCanvas`) then resets the history |
| Drawing.DrawingSurface.PreviewStarted | frontend/src/App.js:606-617 | the canvas is marked not ready; entering the preview mounts a fresh canvas, blank at the default 300×150 size with no stroke in progress, while a press inside the preview keeps the bitmap, its size and any stroke; the history and drawing mode are kept either way |
| Drawing.DrawingSurface.RepressRefusesStroke | frontend/src/App.js:606-617 | as written, a second press in the preview leaves a ready canvas not ready, so the next stroke does not start |
| Drawing.DrawingSurface.PreviewStartedGuarded | frontend/src/App.js:606-617 | the intended press: entering the preview as before; inside the preview the canvas, its readiness and any stroke are left as they were |
| Drawing.DrawingSurface.RepressKeepsDrawing | frontend/src/App.js:606-617 | with the guard, a stroke still starts after a second press |
| Geometry.RoundHalfUp | frontend/src/App.js:464-468 | `Math.round`: the nearest integer, halves rounding up |
| Geometry.Ceil | frontend/src/App.js:272 | `Math.ceil`: the least integer at or above the value |
| Geometry.Clamp | frontend/src/App.js:803-816 | the value limited to the range, unchanged inside it |
| Geometry.AngleIsTranslationInvariant | frontend/src/App.js:244-248 | the pointer angle depends only on the offset from the centre |
| Geometry.NormalizedAngle | frontend/src/App.js:460-461 | the normalised angle lies in [-180, 180] |
| Geometry.CornerSizeDelta | frontend/src/App.js:786-801 | the size change is the drag projected onto the corner's outward direction, divided by the sensitivity |
| Geometry.CornerOutwardDragGrows | frontend/src/App.js:734-749 | dragging any corner outward grows the element |
| Geometry.UnknownCornerActsAsSouthEast | frontend/src/App.js:786-801 | an unrecognised direction behaves as the south-east corner |
| Geometry.NormalizedAngleSpec | frontend/src/App.js:460-461 | the two normalising loops land in [-180, 180] and add whole turns of 360 |
| Geometry.NormalizedAngleSide | frontend/src/App.js:460-461 | an angle above 180 lands in (-180, 180]; one below -180 lands in [-180, 180) |
| Geometry.NormalizedAngleKeepsBothEnds | frontend/src/App.js:460-461 | 180 and -180 are left as they are; 540 becomes 180 and -540 becomes -180 |
| Geometry.NormalizedAngleExample | frontend/src/App.js:460-461 | 190 becomes -170 |
| Geometry.RotationFromGesture | frontend/src/App.js:449-470 | the stored rotation is an integer in [-180, 180] |
| Geometry.RotationSeededByCurrent | frontend/src/App.js:415-470 | a move back to the starting angle yields the rotation the gesture started from, normalised and rounded |
| Geometry.StoredRotationIsFixedPoint | frontend/src/App.js:415-470 | a gesture that does not move keeps a stored rotation |
| Geometry.QuarterTurnExample | frontend/src/App.js:449-470 | turning the pointer by 90 degrees rotates an unrotated element by 90 |
| Geometry.WrappedLines | frontend/src/App.js:269-274 | the line count is the least positive count whose total width covers the text |
| Geometry.TextLineBounds | frontend/src/App.js:250-280 | single line: the width is the text's or the font size, whichever is larger; wrapped: the width is the maximum; the height is lines × line height |
| Geometry.SingleLineThreshold | frontend/src/App.js:265-274 | the text stays on one line exactly when its width fits the maximum |
| Geometry.TextBoundsExamples | frontend/src/App.js:250-280 | 20 characters at size 20 fit on one line; 50 need two lines |
| Geometry.Utf16Length | frontend/src/App.js:262 | `text.length` counts UTF-16 units: between one and two per character, one each exactly when every character is in the Basic Multilingual Plane |
| Geometry.Utf16LengthConcat | frontend/src/App.js:262 | the length of a concatenation is the sum of the lengths |
| Geometry.Utf16LengthExamples | frontend/src/App.js:262 | an emoji beyond the Basic Multilingual Plane counts 2; "aあ" counts 2 |
| Overlays.UpdateAt | frontend/src/App.js:237-241 | the update applies at the index and nowhere else; an index out of range changes nothing |
| Overlays.UpdateKeepsOrigin | frontend/src/App.js:237-241 | an update keeps the overlay's id and natural size |
| Overlays.UpdateAtIdempotent | frontend/src/App.js:237-241 | applying the same update twice is the same as once |
| Overlays.RemoveAt | frontend/src/App.js:225-235 | removing the index drops exactly that entry and keeps the others in order |
| Overlays.RemovalKeepsSelectedEntry | frontend/src/App.js:225-235 | after a removal the selection is valid; it is cleared when the selected entry goes, and follows it otherwise |
| Overlays.InitialOverlaySize | frontend/src/App.js:188-199 | an upload is scaled so its longer side is 150, keeping its aspect ratio |
| Overlays.NewOverlay | frontend/src/App.js:201-215 | a new overlay sits at the default position with opacity 1 and rotation 0, and remembers its natural size |
| Overlays.InitialSizeExamples | frontend/src/App.js:188-199 | a 300×100 upload becomes 150×50; a 100×100 upload becomes 150×150 |
| Overlays.AspectRatio | frontend/src/App.js:753-755 | height over width of the natural size, or of the current size when the natural size is missing |
| Overlays.InverseAspectRatio | frontend/src/App.js:1283-1292 | width over height, taken the same way |
| Overlays.HandleResize | frontend/src/App.js:725-764 | the new width is the clamped initial width plus the delta; the height keeps the natural aspect ratio |
| Overlays.ParsedOr | frontend/src/App.js:1265-1274 | `parseInt(v) \|\| 1`: a missing or zero parse falls back |
| Overlays.TypedWidth | frontend/src/App.js:1265-1274 | a typed width is taken as given, and the height follows the aspect ratio |
| Overlays.TypedHeight | frontend/src/App.js:1283-1292 | a typed height is taken as given, and the width follows the aspect ratio |
| Overlays.HandleResizeExample | frontend/src/App.js:725-764 | dragging a 2:1 overlay by 20 from width 100 gives 120×60 |
| Overlays.ListOperationsKeepNaturalSize | frontend/src/App.js:225-241 | updates and removals keep every overlay's natural size positive |
| Editor.EmojiBoundsAreSquare | frontend/src/App.js:250-263 | with an emoji, the selection bounds are the emoji size squared |
| Editor.CalculateTextBounds | frontend/src/App.js:250-280 | with an emoji, a square of the emoji size; otherwise the text-line bounds of the text's UTF-16 length at the font size |
| Editor.DragFollowsPointer | frontend/src/App.js:765-778 | the element moves by exactly the pointer's displacement; not moving the pointer keeps it in place |
| Editor.ResizeForm | frontend/src/App.js:779-846 | an emoji resize changes only the emoji size, a text resize only the font size, each clamped to its range; with neither there is no change |
| Editor.WheelDelta | frontend/src/App.js:855 | each wheel step is ±5, shrinking exactly on a downward scroll (positive `deltaY`) |
| Editor.WheelForm | frontend/src/App.js:850-892 | the wheel resizes the emoji if there is one, else the text, within its range, by one step when that stays inside |
| Editor.WheelUpThenDown | frontend/src/App.js:850-892 | a step up followed by a step down restores an in-range form |
| Editor.ScaleOverlay | frontend/src/App.js:951-975 | each overlay is sent with its position and size scaled and rounded, and its opacity and rotation unchanged |
| Editor.ScaleOverlays | frontend/src/App.js:951-975 | every overlay is sent, in order |
| Editor.TextHandleResizesEmoji | frontend/src/App.js:779-816 | with an emoji present, the text's handle resizes the emoji |
| Editor.ResizeStaysInRange | frontend/src/App.js:803-845 | resizing keeps each size within its range |
| Editor.PreviewEditor.constructor | frontend/src/App.js:5-53 | the initial form, positions, rotations, selections and flags |
| Editor.PreviewEditor.StartPreview | frontend/src/App.js:606-617 | enters the preview, clears the overlay selection and recomputes the bounds when there is content |
| Editor.PreviewEditor.AddOverlay | frontend/src/App.js:169-223 | appends the new overlay and selects it |
| Editor.PreviewEditor.RemoveOverlay | frontend/src/App.js:225-235 | removes the entry and adjusts the selection so it keeps pointing at the same overlay |
| Editor.PreviewEditor.UpdateOverlay | frontend/src/App.js:237-241 | the overlay list becomes `UpdateAt` of the old one |
| Editor.PreviewEditor.PressElement | frontend/src/App.js:619-643 | in the preview, starts a drag with the grab offset from the element's centre; at most one gesture is active |
| Editor.PreviewEditor.PressResizeHandle | frontend/src/App.js:645-670 | in the preview, starts a resize in the given direction from the emoji size, or the font size without an emoji |
| Editor.PreviewEditor.PressOverlay | frontend/src/App.js:672-692 | in the preview, selects the overlay and starts dragging it |
| Editor.PreviewEditor.PressOverlayHandle | frontend/src/App.js:694-712 | in the preview, selects the overlay and starts resizing it |
| Editor.PreviewEditor.HandleMouseMove | frontend/src/App.js:714-848 | each active gesture has its effect (overlay drag, overlay resize, element drag, element resize) and nothing else changes; without a gesture nothing changes |
| Editor.PreviewEditor.ResizeSelectedOverlay | frontend/src/App.js:725-764 | the selected overlay gets `HandleResize` |
| Editor.PreviewEditor.MoveElement | frontend/src/App.js:765-778 | only the active element moves |
| Editor.PreviewEditor.ResizeElement | frontend/src/App.js:779-846 | the form becomes `ResizeForm`, and the bounds are recomputed when there is content |
| Editor.PreviewEditor.Wheel | frontend/src/App.js:850-892 | in the preview the form becomes `WheelForm` and the bounds follow; outside the preview nothing changes |
| Editor.PreviewEditor.RotationStart | frontend/src/App.js:415-447 | records the element's centre and the initial angle, less its current rotation |
| Editor.PreviewEditor.RotationMove | frontend/src/App.js:449-470 | the rotated element gets the normalised, rounded angle; the other element is unchanged |
| Editor.PreviewEditor.RotationEnd | frontend/src/App.js:472-477 | the rotation gesture is reset |
| Editor.PreviewEditor.GlobalPointerUp | frontend/src/App.js:1158-1176 | in the preview every gesture ends and the bounds are recomputed after a drag or resize; outside it nothing changes |
| Editor.PreviewEditor.BackgroundClick | frontend/src/App.js:1530-1539 | outside drawing mode a click on the background clears the overlay selection |
| Editor.PreviewEditor.Request | frontend/src/App.js:901-1001 | rejected exactly when there is no text, no emoji, no drawing history beyond one entry and no overlay; otherwise the text with its colour and the emoji are sent as typed when non-empty, the drawing only in drawing mode, and the overlays as `ScaleOverlays` of the list |
| Editor.PreviewEditor.DrawingCountedButNotSent | frontend/src/App.js:903-948 | a drawing made before leaving drawing mode passes the check but is not sent |
| HexColour.HexDigitValue | backend/app.py:146 | a digit for exactly the ASCII digits, a-f, A-F and the decimal digits of other scripts, with value below 16; ASCII digits have their usual value |
| HexColour.DecimalFromSpec | backend/app.py:146 | a code point is a decimal digit exactly when one of the Unicode digit runs holds it, and its value is then its offset in such a run |
| HexColour.DecimalValue | backend/app.py:146 | a digit value below 10; below the second run only `0`-`9` are digits |
| HexColour.DigitIsNotSpace | backend/app.py:146 | no decimal digit is white space, by str.isspace or by int()'s narrower stripping, so the stripping never removes one |
| HexColour.ParseHexInt | backend/app.py:146 | `int(s, 16)` rejects a blank string, and a string that starts with one of the separators U+001C..U+001F, which it does not strip |
| HexColour.ParseTwoHexDigits | backend/app.py:146 | two hex digits parse to their base-16 value |
| HexColour.Slice | backend/app.py:146 | Python slicing `s[lo:hi]`, shortened at the end of the string |
| HexColour.LStripHash | backend/app.py:145 | `lstrip('#')` removes exactly the leading run of `#` |
| HexColour.HexToRgb | backend/app.py:144-146 | a colour with at most four characters after the hashes is rejected |
| HexColour.HexDigitsGiveChannels | backend/app.py:144-146 | six hex digits after the hashes give the three channels, each in 0..255 |
| HexColour.HexChar | backend/app.py:146 | the inverse of the digit value |
| HexColour.Hex2Value | backend/app.py:146 | a two-digit rendering parses back to its number |
| HexColour.HexToRgbRoundTrip | backend/app.py:144-146 | parsing `#rrggbb` returns the channels it was written from |
| HexColour.ParseNegativeDigit | backend/app.py:146 | `int("-f", 16)` is -15 |
| HexColour.SignedColourLeavesRange | backend/app.py:144-146 | `#-f0000` parses to a red channel of -15 |
| HexColour.ShortColourIsRejected | backend/app.py:144-146 | `#fff` fails: the third slice is empty |
| HexColour.SeparatorIsNotStripped | backend/app.py:144-146 | a U+001C before or after a digit makes `int` fail, so a colour that starts with one is rejected, while a space and a tab are stripped |
| HexColour.ArabicIndicColourParses | backend/app.py:144-146 | Arabic-Indic digits count: `#١٢٣٤٥٦` parses to (18, 52, 86) |
| JapaneseText.ContainsJapanese | backend/hirsakam_icon_generator.py:102-111 | true exactly when some character lies in one of the four ranges |
| JapaneseText.ContainsJapaneseConcat | backend/hirsakam_icon_generator.py:102-111 | a concatenation is Japanese exactly when one of its parts is |
| JapaneseText.BelowHiraganaIsNotJapanese | backend/hirsakam_icon_generator.py:102-111 | text below the hiragana block never counts |
| JapaneseText.ContainsJapaneseExamples | backend/hirsakam_icon_generator.py:102-111 | ASCII and the ideographic space do not count; hiragana, the long-vowel mark, a kanji and a fullwidth letter do |
| Placement.Trunc | backend/hirsakam_icon_generator.py:631-632 | Python `int()` on a float truncates toward zero |
| Placement.TruncSeparates | backend/hirsakam_icon_generator.py:805-806 | values at least 2 apart truncate to different integers, in the same order |
| Placement.ApplyTransforms | backend/hirsakam_icon_generator.py:246-262 | rotate (negated unless flipped) only for a non-zero rotation, then flip only when asked |
| Placement.TransformsTurnClockwise | backend/hirsakam_icon_generator.py:246-262 | the composed effect turns the element by the negated angle, with the flip flag as given |
| Placement.CenteredPaste | backend/hirsakam_icon_generator.py:893-894 | `center - size // 2`: the image is centred, lying half a pixel left when the size is odd |
| Placement.OverlayPaste | backend/hirsakam_icon_generator.py:631-632 | `int(center - size / 2)`: within one pixel of the exact corner |
| Placement.OverlayPasteVersusCentred | backend/hirsakam_icon_generator.py:631-632 | even sizes paste alike; odd sizes differ by one pixel exactly when the corner is positive |
| Placement.PasteExamples | backend/hirsakam_icon_generator.py:631-632 | size 7 at 10: 7 against 6; size 7 at 3: both 0 |
| Placement.Split | backend/hirsakam_icon_generator.py:768 | `str.split(sep)` gives at least one part, and no part contains the separator |
| Placement.MaxWidthOf | backend/hirsakam_icon_generator.py:773-790 | the maximum of the measured widths (a blank line is measured as a space) |
| Placement.JoinSplit | backend/hirsakam_icon_generator.py:768 | joining the parts of a split gives back the text |
| Placement.SplitExample | backend/hirsakam_icon_generator.py:768 | a trailing newline makes a last empty line |
| Placement.MeasureBlock | backend/hirsakam_icon_generator.py:773-790 | the measuring loop computes `MaxWidthOf` |
| Placement.PlaceOnCanvas | backend/hirsakam_icon_generator.py:799-807 | each line gets its slot on the temporary canvas |
| Placement.PlaceDirect | backend/hirsakam_icon_generator.py:822-834 | each line gets its slot on the image |
| Placement.LineTop | backend/hirsakam_icon_generator.py:806 | `int(top + i * line_height)`: the floor of the exact top when that is not negative |
| Placement.DirectSlot | backend/hirsakam_icon_generator.py:822-834 | no slot exactly for a blank line; otherwise the line is centred on the position to within half a pixel, at its line's top |
| Placement.CanvasSlot | backend/hirsakam_icon_generator.py:799-807 | no slot exactly for a blank line; otherwise a line no wider than the block lies horizontally inside it, at its line's top |
| Placement.LayoutText | backend/hirsakam_icon_generator.py:757-837 | one slot per line, none for a blank line; a direct layout exactly when the rotation is 0; the slots are those of `DirectSlot` or `CanvasSlot` |
| Placement.LineTopsSeparate | backend/hirsakam_icon_generator.py:832-833 | with a line height of at least 2, later lines start strictly lower |
| Placement.LinesStackDownwards | backend/hirsakam_icon_generator.py:822-834 | at any font size of at least 2, a later line is placed strictly lower in both branches |
| Placement.CanvasLinesFitHorizontally | backend/hirsakam_icon_generator.py:795-805 | every line drawn on the rotation canvas lies within its padded width |
| Placement.DirectLinesAreCentred | backend/hirsakam_icon_generator.py:832 | a directly drawn line is centred on the position, to within half a pixel |
| Placement.ClampCrop | backend/hirsakam_icon_generator.py:687-727 | the crop box is clamped into the image; a box that comes out empty keeps the input unchanged |
| Placement.CropExamples | backend/hirsakam_icon_generator.py:697-714 | concrete clamping cases |
| EmojiPixels.MostFrequentIndex | backend/hirsakam_icon_generator.py:416-419 | an index into the candidate colours |
| EmojiPixels.TransparentColoursSpec | backend/hirsakam_icon_generator.py:408-414 | the tallied colours are exactly those of fully transparent pixels; other colours count zero |
| EmojiPixels.ColoursOfPrefix | backend/hirsakam_icon_generator.py:408-414 | the colours of the first pixels begin the colour list: the dict keeps colours in order of first transparent appearance |
| EmojiPixels.FirstOfTies | backend/hirsakam_icon_generator.py:416-419 | a transparent pixel whose colour ties with the chosen one comes at or after a transparent pixel of the chosen colour |
| EmojiPixels.MostFrequentIndexSpec | backend/hirsakam_icon_generator.py:416-419 | `max` picks the highest count, and on ties the first colour met |
| EmojiPixels.BackgroundSpec | backend/hirsakam_icon_generator.py:405-419 | no background exactly when no pixel is fully transparent; otherwise a colour of a transparent pixel that no colour outnumbers, and every transparent pixel whose colour ties with it comes at or after a transparent pixel of the chosen colour |
| EmojiPixels.BackgroundExample | backend/hirsakam_icon_generator.py:405-419 | a concrete detection with a tie broken by first occurrence |
| EmojiPixels.CountTransparentColours | backend/hirsakam_icon_generator.py:408-413 | the loop builds the dict of fully transparent colours: its keys are the colours of `TransparentColours` in first-seen order, each mapped to its count |
| EmojiPixels.DetectBackground | backend/hirsakam_icon_generator.py:405-419 | the counting loop and the max over the counted items compute `Background` |
| EmojiPixels.CleanPixel | backend/hirsakam_icon_generator.py:422-437 | cleared exactly when fully transparent, of the background colour or below alpha 32; otherwise made fully opaque |
| EmojiPixels.BinarizePixel | backend/hirsakam_icon_generator.py:445-457 | cleared exactly below alpha 128; otherwise opaque |
| EmojiPixels.CleanPixels | backend/hirsakam_icon_generator.py:422-439 | the first pass cleans every pixel, and only alpha 0 or 255 remains |
| EmojiPixels.BinarizeAlpha | backend/hirsakam_icon_generator.py:445-459 | the second pass binarises every pixel, and only alpha 0 or 255 remains |
| EmojiPixels.BinarizeFixesBinaryPixels | backend/hirsakam_icon_generator.py:445-457 | binarising leaves an already binary pixel alone |
| EmojiPixels.BinarizeIdempotent | backend/hirsakam_icon_generator.py:445-457 | binarising twice is binarising once |
| EmojiPixels.SecondPassAfterFirstIsIdentity | backend/hirsakam_icon_generator.py:422-457 | without the resize, the second pass would change nothing |
| EmojiPixels.OpaqueBackgroundColourIsCleared | backend/hirsakam_icon_generator.py:424-432 | an opaque pixel that has the background colour is still cleared |
| EmojiPixels.CleanAll | backend/hirsakam_icon_generator.py:422-439 | the first pass over the whole image |
| EmojiPixels.CleanDownloadedEmoji | backend/hirsakam_icon_generator.py:405-461 | the result is binary and is the second pass of the resized first pass |
| Layers.LookupFindsLast | backend/app.py:180-195 | a missing key exactly when no member has it; otherwise the value of some member with that key (`json.loads` keeps the last) |
| Layers.GetOr | backend/app.py:188-195 | `dict.get(key, default)` |
| Layers.DictKeys | backend/app.py:174 | iterating a dict visits each distinct key once |
| Layers.Iterate | backend/app.py:174 | `for` over a list visits its items, over a string its characters, over a dict its keys; anything else raises |
| Layers.OverlayDraws | backend/app.py:174-205 | no more composites than entries, and each is the one its entry gives, in order |
| Layers.LayerOrder | backend/app.py:130-136 | the parsed form field, or the default order when the field is empty or does not parse |
| Layers.OverlayDraw | backend/app.py:176-197 | an overlay entry is composited exactly when it is an object whose `data` has a second comma-separated piece that is base64-decodable and which has the keys x, y, width, height and opacity; their values are passed on as JSON, unchecked |
| Layers.OverlayDrawsArePrefix | backend/app.py:174-205 | the overlays composited are the first entries in order, and the loop stops at the first unusable entry |
| Layers.ProcessOverlays | backend/app.py:174-205 | the loop computes `OverlayDraws` |
| Layers.OverlayLayer | backend/app.py:168-205 | a payload that does not parse draws nothing; an array draws its usable prefix of overlays |
| Layers.ProcessLayer | backend/app.py:142-206 | a layer raises exactly when it is the text layer, there is text and the colour does not parse; no layer composites the drawing |
| Layers.FoldLayers | backend/app.py:209-210 | the fold raises exactly when there is text, the colour does not parse and the order lists the text layer; otherwise it only appends |
| Layers.UnknownOrEmptyLayerDrawsNothing | backend/app.py:142-206 | an unknown tag, or a known one whose field is empty, draws nothing |
| Layers.TextLayerFailsOnColour | backend/app.py:142-157 | the text layer fails exactly when the colour does not parse, and otherwise draws the text |
| Layers.FoldLayersExtends | backend/app.py:209-210 | the fold only appends to what is already drawn |
| Layers.FoldLayersSplit | backend/app.py:209-210 | folding over a concatenated order is folding over each part in turn |
| Layers.RepeatedLayerDrawsTwice | backend/app.py:209-210 | a layer listed twice is composited twice |
| Layers.StringOrderDrawsNothing | backend/app.py:209-210 | an order given as a JSON string draws nothing |
| Layers.SingleCharactersDrawNothing | backend/app.py:142-206 | tags that are not layer names draw nothing |
| Layers.ComposeLayers | backend/app.py:209-210 | the loop computes `FoldLayers` |
| Layers.WithDrawing | backend/app.py:217-227 | the drawing is appended last, and only when one was sent |
| Layers.Endpoint | backend/app.py:213-251 | success only with content; without content always a failure; a failure is 500, or the no-content status for a request without content |
| Layers.RespondAsWritten | backend/app.py:213-251 | as written every failure is 500, and a request without content gets 500 |
| Layers.Respond | backend/app.py:213-251 | corrected, a failure is 400 or 500, a 400 only without content, and success only with content |
| Layers.AsWrittenDiffersOnlyOnEmptyRequests | backend/app.py:213-251 | the endpoint as written and the corrected one agree except on an empty request, which is answered 500 as written |
| Layers.NoContentFoldsToNothing | backend/app.py:142-206 | with no content every layer draws nothing |
| Layers.BadRequestExactlyWithoutContent | backend/app.py:213-214 | the corrected endpoint answers 400 exactly when there is no content and the order is iterable |
| Layers.FoldNeverDraws | backend/app.py:141-210 | the fold itself never composites the drawing |
| Layers.OverlayLayerNeverDraws | backend/app.py:168-205 | the overlay layer composites only overlays |
| Layers.DrawingIsTopmost | backend/app.py:217-227 | on success with a drawing, the drawing is the last composite and appears only there |
| Layers.GenerateIcon | backend/app.py:76-251 | the corrected endpoint, step by step, computes `Respond` |
| Layers.EmptyRequestAnswers500 | backend/app.py:213-251 | an empty request gets 500 as written and 400 when corrected |
| Layers.DefaultOrderFold | backend/app.py:130-136 | the default order draws text, then emoji, then the overlays |
| Layers.DefaultOrderComposites | backend/app.py:130-227 | a default request with text, emoji and a drawing composites exactly text, emoji, drawing |
| Layers.DefaultOrderEndpoint | backend/app.py:130-227 | the same, once the colour has parsed |
| Gallery.AsciiLower | backend/app.py:282 | lowering works character by character and keeps the length |
| Gallery.AsciiLowerIdempotent | backend/app.py:282 | lowering twice is lowering once |
| Gallery.ImageNameIgnoresCase | backend/app.py:282 | the image-name test ignores case |
| Gallery.UpperCaseExtensionIsImage | backend/app.py:282 | `A.JPG` is an image |
| Gallery.OtherNamesAreNotImages | backend/app.py:282 | `a.gif`, and `png` with no dot, are not |
| Gallery.SortParameterExamples | backend/app.py:293-298 | only `asc`, in any case, sorts ascending; everything else sorts descending |
| Gallery.FilterImages | backend/app.py:281-290 | only image names are kept, each with its download URL |
| Gallery.FilterImagesKeepsExactlyImages | backend/app.py:281-290 | a record is listed exactly when its entry is in the directory and has an image name |
| Gallery.ListImages | backend/app.py:281-290 | the listing loop computes `FilterImages` |
| Gallery.InsertPermutes | backend/app.py:293-298 | insertion adds exactly the new record |
| Gallery.InsertSorted | backend/app.py:293-298 | insertion into a sorted list keeps it sorted |
| Gallery.SortByCreationSorts | backend/app.py:293-298 | the result is ordered by creation time, ascending or descending |
| Gallery.SortByCreationPermutes | backend/app.py:293-298 | the result is a permutation of the input |
| Gallery.CreatedAt | backend/app.py:293-298 | the records with one creation time, in order |
| Gallery.InsertKeepsTies | backend/app.py:293-298 | insertion puts the new record before those with the same time, and keeps their order |
| Gallery.SortByCreationIsStable | backend/app.py:293-298 | records with equal times keep their order (stable sort, also with `reverse=True`) |
| Gallery.StableOrderIsUnique | backend/app.py:293-298 | two sorted lists with the same records per time are equal |
| Gallery.StripCreation | backend/app.py:301-302 | the loop drops each record's time and keeps its name and URL |
| Gallery.PublishAll | backend/app.py:301-302 | every record is published, in order |
| Gallery.GalleryOf | backend/app.py:268-307 | 500 exactly when the directory cannot be read; no directory gives an empty list |
| Gallery.GetGallery | backend/app.py:268-307 | the endpoint body computes `GalleryOf` |
| Gallery.GalleryListsImageFiles | backend/app.py:281-302 | a file appears in the gallery exactly when the directory holds an image with that name |
| Gallery.GalleryIsTheStableCreationOrder | backend/app.py:281-302 | the gallery is the one creation-time order that keeps ties in listing order |
| Gallery.GalleryIsCreationOrdered | backend/app.py:281-302 | such an order exists and is what the gallery shows |
| TypedSize.NatToString | frontend/src/App.js:855-858 | `String(n)`: decimal digits whose value is n |
| TypedSize.IntToString | frontend/src/App.js:855-858 | `String(i)`: a whole numeral of value i, with a minus sign exactly when i is negative |
| TypedSize.DigitsValueConcat | frontend/src/App.js:858 | appending digits multiplies the first digits' value by ten per appended digit and adds the appended value |
| TypedSize.DigitsAfterNumeral | frontend/src/App.js:858 | a numeral followed by digits is a numeral whose value is the appended number |
| TypedSize.MinusInsideIsNotNumeral | frontend/src/App.js:858 | a numeral followed by a negative number's text is not a numeral, so ToNumber gives NaN |
| TypedSize.TypedSum | frontend/src/App.js:858 | a typed field plus a step reads as the step when the field is empty, as NaN exactly when the field is non-empty and the step negative, and otherwise as the appended number |
| TypedSize.JsClamp | frontend/src/App.js:858 | `Math.max(lo, Math.min(hi, x))`: NaN exactly for NaN; a number lands in range, unchanged inside it |
| TypedSize.Adjusted | frontend/src/App.js:803-818 | a number is stepped and clamped, a cleared field acts as 0, a typed numeral has the step's text appended; NaN exactly for NaN or a non-empty typed field and a negative step |
| TypedSize.WheelIncrement | frontend/src/App.js:855 | the wheel step as a whole number, equal to `Editor.WheelDelta` |
| TypedSize.WheelSize | frontend/src/App.js:855-867 | the wheel gives NaN exactly for NaN, or for a typed non-empty size on a downward scroll; any number it gives is in range |
| TypedSize.NumericEmojiWheelAgrees | frontend/src/App.js:855-858 | on a numeric emoji size the wheel gives what `Editor.WheelForm` gives |
| TypedSize.NumericFontWheelAgrees | frontend/src/App.js:866-867 | on a numeric font size the wheel gives what `Editor.WheelForm` gives |
| TypedSize.NumericEmojiResizeAgrees | frontend/src/App.js:803-804 | on a numeric emoji size a resize gives what `Editor.ResizeForm` gives |
| TypedSize.NumericFontResizeAgrees | frontend/src/App.js:817-818 | on a numeric font size a resize gives what `Editor.ResizeForm` gives |
| TypedSize.TypedEmojiWheelJumps | frontend/src/App.js:855-858 | a typed emoji size "48" becomes 485 on one step up, where the number 48 becomes 53 |
| TypedSize.TypedFontWheelJumps | frontend/src/App.js:866-867 | a typed font size "48" becomes 200, the limit, on one step up |
| TypedSize.TypedWheelDownIsNaN | frontend/src/App.js:855-867 | one step down on a typed size "48" gives NaN |
| TypedSize.TypedWheelUpThenDown | frontend/src/App.js:855-858 | up then down turns a typed "48" into 480, not 48 |
| TypedSize.TypedResizeAppends | frontend/src/App.js:803-804 | growing a typed emoji size "48" by 3 gives 483 |
| TypedSize.TypedResizeShrinkIsNaN | frontend/src/App.js:803-804 | shrinking a typed size "48" by 3 gives NaN |

## Left out

- Rendering is left out: PIL drawing, fonts and font lookup, image decoding, the rembg background removal, LANCZOS resampling and alpha scaling by opacity. Snapshots and pixels are abstract values, and the resize and the text measurer are parameters.
- All I/O is left out: `fetch`, `FileReader`, the canvas 2D context, file paths, temporary files, the download endpoint, the default-image and root routes. The directory listing is the `Listing` value, and each generator call's result path is taken as unchanged.
- Timers and React's batching of state updates are left out. Each event handler is one atomic step.
- The browser-side image compression loop (`compressImage`) is left out. It only affects the size of the upload.
- `Math.atan2` is the parameter `angleOf`. Only its translation invariance is used.
- JavaScript and Python floats are modelled as exact reals. Rounding, ceiling and truncation are explicit; floating-point error is not modelled.
- `json.loads` and `base64.b64decode` are the `Codecs` parameters. Decoding itself is not modelled.
- Layers.ProcessLayer takes the text colour already parsed, once per request. The source parses it on every text layer, which gives the same success or failure each time.
- Gallery.AsciiLower lowers only ASCII letters. `str.lower` also lowers other letters, which cannot change whether a name ends in `.jpg`, `.jpeg` or `.png`, nor whether the parameter equals `asc`.
- Gallery.GalleryOf folds every `os` failure, including a `getctime` failure on a single file, into `Unreadable`. Either way the source answers 500.
- Gallery.SortByCreation stands in for Python's sort. It is proved sorted, a permutation and stable, and StableOrderIsUnique shows these three facts single out one order.
- Editor.PreviewEditor.Request gives the form fields as strings and leaves out the multipart encoding. The drawing is a flag, because the canvas blob is an abstract snapshot.
- Editor.WheelForm treats the emoji and font sizes as numbers, as the code intends. Once a size has been typed into its number input, the source holds the input's string instead; that case is modelled by `TypedSize.WheelSize` (see Findings).
- Editor.ResizeForm treats the starting size as a number. A typed size makes the source append the delta's text; that case is modelled by `TypedSize.Adjusted` (see Findings).
- Editor.WheelUpThenDown holds for numeric sizes only. For a typed size, `TypedSize.TypedWheelUpThenDown` shows the source does not restore it.
- Editor.ResizeStaysInRange holds for numeric sizes only. For a typed size the source can store NaN (`TypedSize.TypedResizeShrinkIsNaN`).
- Editor.PreviewEditor.ResizeElement keeps the sizes numeric, as `Editor.ResizeForm` does. Typed sizes are covered by `TypedSize`.
- Editor.PreviewEditor.Wheel keeps the sizes numeric, as `Editor.WheelForm` does. Typed sizes are covered by `TypedSize`.
- TypedSize.Adjusted takes whole-number steps and whole typed numerals (or a cleared field). Fractional drag deltas, whose `String` form has a decimal point, and typed fractions or exponents are not modelled.
- TypedSize.WheelSize gives the value the handler stores. A NaN size is not followed further into the bounds or the request.
- HexColour.DecimalValue uses the decimal digit runs of Unicode 15.0. A Python built on a later Unicode version accepts the digits of the runs added since.
- The frontend's other views (the gallery page, downloads, the loading spinner) and the backend's legacy text path (`add_text_to_image_legacy`) are not part of this model.

## Findings

| source | as written | input that shows it | evidently intended | confidence | as-written member | corrected member |
|---|---|---|---|---|---|---|
| backend/app.py:213-251 | the `HTTPException(400)` raised when there is no content is caught by `except Exception` and answered 500 | a request with no text, no emoji, no drawing and no overlays | status 400, "no content" | not executed | Layers.EmptyRequestAnswers500 | Layers.BadRequestExactlyWithoutContent |
| frontend/src/App.js:855-858 | `formData.emojiSize + delta` appends the step's text when the size was typed, because the number input stores a string | emoji size typed as "48", one wheel step up: "485" is read as 485 | the size steps by 5, to 53 | not executed | TypedSize.TypedEmojiWheelJumps | Editor.WheelForm |
| frontend/src/App.js:803-818 | `initialSize + sizeDelta` appends the delta's text in the same way when the size was typed | size typed as "48", a drag that shrinks it by 3: "48-3" is NaN | the size shrinks to 45 | not executed | TypedSize.TypedResizeShrinkIsNaN | Editor.ResizeForm |
| frontend/src/App.js:606-617 | `startPreview` clears `canvasReady` with no guard, and the preview button stays on screen in the preview | in drawing mode with a ready canvas, press Preview again: the canvas is not remounted and the drawing-mode effect does not run, so nothing makes it ready again and every stroke is refused | the readiness is reset only when entering the preview, so drawing goes on after a second press | not executed | Drawing.DrawingSurface.RepressRefusesStroke | Drawing.DrawingSurface.PreviewStartedGuarded |
