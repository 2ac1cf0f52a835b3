/**
 * The /generate endpoint of backend/app.py: the layer order is read from
 * the form (with a default), `process_layer` is folded over it, the
 * no-content check runs, and the drawing is composited last.
 *
 * Every generator call (add_text_to_image, add_emoji_to_image,
 * add_overlay_image) writes its result back to the path it was given, or
 * returns that same path when it fails internally, so the result path never
 * changes; what the order decides is WHICH composites are requested and in
 * what sequence. The model therefore folds over a list of composite
 * requests (`Draw`). json.loads is the parameter `parse` (None for a
 * decode error) and base64.b64decode's acceptance of a payload is the
 * parameter `decodes`, both collected in `Codecs`.
 */
module Layers {
  import opened Wrappers
  import HexColour
  import Placement

  /** A value json.loads can produce; an object keeps its members in document order, duplicates included. */
  datatype Json =
    | JNull
    | JBool(b: bool)
    | JNumber(n: real)
    | JString(s: string)
    | JArray(items: seq<Json>)
    | JObject(members: seq<(string, Json)>)

  /** The decoders the endpoint calls into. */
  datatype Codecs = Codecs(parse: string -> Option<Json>, decodes: string -> bool)

  /** The form fields of /generate that decide what is composited. */
  datatype GenerateRequest = GenerateRequest(
    text: Option<string>, emoji: Option<string>,
    textX: int, textY: int, emojiX: int, emojiY: int,
    fontSize: int, emojiSize: int, textColor: string,
    textRotation: int, emojiRotation: int, emojiFlipHorizontal: bool,
    hasDrawing: bool, overlayImages: Option<string>, layerOrder: Option<string>)

  /** One composite requested from the generator. */
  datatype Draw =
    | DrawText(text: string, x: int, y: int, color: HexColour.Rgb, fontSize: int, rotation: int)
    | DrawEmoji(emoji: string, x: int, y: int, size: int, rotation: int, flipHorizontal: bool)
    | DrawOverlay(payload: string, args: OverlayArgs)
    | DrawDrawing

  /** The values add_overlay_image receives, passed through as json.loads produced them. */
  datatype OverlayArgs = OverlayArgs(x: Json, y: Json, width: Json, height: Json, opacity: Json,
                                     rotation: Json, removeBackground: Json, flipHorizontal: Json)

  /** The HTTP outcome: the composites made, or an error status. */
  datatype Response = Generated(draws: seq<Draw>) | Failed(status: int)

  /** Python truthiness of an optional form string: present and non-empty. */
  predicate Truthy(field: Option<string>)
  {
    field.Some? && field.value != ""
  }

  /** `d[key]` on the dict json.loads builds from `members`: None for a KeyError. */
  function Lookup(members: seq<(string, Json)>, key: string): Option<Json>
    decreases |members|
  {
    if |members| == 0 then None
    else if members[|members| - 1].0 == key then Some(members[|members| - 1].1)
    else Lookup(members[..|members| - 1], key)
  }

  /** A key is found iff some member has it, and then the value is the one of its LAST member, as for a duplicate key in json.loads. */
  lemma LookupFindsLast(members: seq<(string, Json)>, key: string)
    ensures Lookup(members, key).None? <==> forall i :: 0 <= i < |members| ==> members[i].0 != key
    ensures Lookup(members, key).Some? ==>
              exists i :: 0 <= i < |members| && members[i] == (key, Lookup(members, key).value)
                          && forall j :: i < j < |members| ==> members[j].0 != key
  {
    LookupMissesAbsentKeys(members, key);
    if Lookup(members, key).Some? {
      LookupTakesLastMember(members, key);
    }
  }

  lemma {:induction false} LookupMissesAbsentKeys(members: seq<(string, Json)>, key: string)
    ensures Lookup(members, key).None? <==> forall i :: 0 <= i < |members| ==> members[i].0 != key
    decreases |members|
  {
    if |members| > 0 && members[|members| - 1].0 != key {
      var init := members[..|members| - 1];
      LookupMissesAbsentKeys(init, key);
      assert forall i :: 0 <= i < |init| ==> init[i] == members[i];
    }
  }

  lemma {:induction false} LookupTakesLastMember(members: seq<(string, Json)>, key: string)
    requires Lookup(members, key).Some?
    ensures exists i :: 0 <= i < |members| && members[i] == (key, Lookup(members, key).value)
                        && forall j :: i < j < |members| ==> members[j].0 != key
    decreases |members|
  {
    var n := |members|;
    if members[n - 1].0 == key {
      assert members[n - 1] == (key, Lookup(members, key).value);
    } else {
      var init := members[..n - 1];
      assert Lookup(members, key) == Lookup(init, key);
      LookupTakesLastMember(init, key);
      var i :| 0 <= i < |init| && init[i] == (key, Lookup(init, key).value)
               && forall j :: i < j < |init| ==> init[j].0 != key;
      assert members[i] == init[i];
      assert forall j :: i < j < n - 1 ==> members[j] == init[j];
    }
  }

  /** `d.get(key, fallback)`. */
  function GetOr(members: seq<(string, Json)>, key: string, fallback: Json): (r: Json)
    ensures Lookup(members, key).Some? ==> r == Lookup(members, key).value
    ensures Lookup(members, key).None? ==> r == fallback
  {
    match Lookup(members, key)
    case Some(v) => v
    case None => fallback
  }

  /** The keys of the dict, each once, in the order of their first occurrence. */
  function DictKeys(members: seq<(string, Json)>): (keys: seq<string>)
    ensures forall i, j :: 0 <= i < j < |keys| ==> keys[i] != keys[j]
    ensures forall k :: k in keys <==> exists i :: 0 <= i < |members| && members[i].0 == k
    decreases |members|
  {
    if |members| == 0 then []
    else
      var init := members[..|members| - 1];
      var keys := DictKeys(init);
      var last := members[|members| - 1].0;
      assert forall i :: 0 <= i < |init| ==> init[i] == members[i];
      if last in keys then keys else keys + [last]
  }

  /** Python's `for x in value`: a list gives its items, a string its characters, a dict its keys; anything else raises TypeError (None). */
  function Iterate(j: Json): (r: Option<seq<Json>>)
    ensures r.None? <==> !(j.JArray? || j.JString? || j.JObject?)
    ensures j.JArray? ==> r == Some(j.items)
    ensures j.JString? ==> r.Some? && |r.value| == |j.s|
                           && forall i :: 0 <= i < |j.s| ==> r.value[i] == JString([j.s[i]])
    ensures j.JObject? ==> r.Some? && |r.value| == |DictKeys(j.members)|
                           && forall i :: 0 <= i < |r.value| ==> r.value[i] == JString(DictKeys(j.members)[i])
  {
    match j
    case JArray(items) => Some(items)
    case JString(s) => Some(seq(|s|, i requires 0 <= i < |s| => JString([s[i]])))
    case JObject(members) =>
      var keys := DictKeys(members);
      Some(seq(|keys|, i requires 0 <= i < |keys| => JString(keys[i])))
    case _ => None
  }

  /** `['text', 'emoji', 'overlay']`. */
  const DefaultLayerOrder: Json := JArray([JString("text"), JString("emoji"), JString("overlay")])

  /** The layer order: the parsed form field when it is non-empty and parses, else the default. */
  function LayerOrder(req: GenerateRequest, codecs: Codecs): (order: Json)
    ensures !Truthy(req.layerOrder) ==> order == DefaultLayerOrder
    ensures Truthy(req.layerOrder) && codecs.parse(req.layerOrder.value).None? ==> order == DefaultLayerOrder
    ensures Truthy(req.layerOrder) && codecs.parse(req.layerOrder.value).Some? ==>
              order == codecs.parse(req.layerOrder.value).value
  {
    if Truthy(req.layerOrder) then
      match codecs.parse(req.layerOrder.value)
      case Some(parsed) => parsed
      case None => DefaultLayerOrder
    else DefaultLayerOrder
  }

  /**
   * What handling one overlay entry needs so as not to raise: a dict, whose
   * 'data' is a string with a part after the first comma that base64
   * accepts, and which has 'x', 'y', 'width', 'height' and 'opacity'.
   */
  predicate OverlayIsUsable(item: Json, codecs: Codecs)
  {
    && item.JObject?
    && Lookup(item.members, "data").Some? && Lookup(item.members, "data").value.JString?
    && |Placement.Split(Lookup(item.members, "data").value.s, ',')| >= 2
    && codecs.decodes(Placement.Split(Lookup(item.members, "data").value.s, ',')[1])
    && Lookup(item.members, "x").Some? && Lookup(item.members, "y").Some?
    && Lookup(item.members, "width").Some? && Lookup(item.members, "height").Some?
    && Lookup(item.members, "opacity").Some?
  }

  /**
   * One entry of the overlay list, or None when handling it raises: it must
   * be a dict whose 'data' is a string with a part after its first comma
   * that base64 accepts, and which has 'x', 'y', 'width', 'height' and
   * 'opacity'; the other three fields have defaults.
   */
  function OverlayDraw(item: Json, codecs: Codecs): (r: Option<Draw>)
    ensures r.Some? <==> OverlayIsUsable(item, codecs)
    ensures r.Some? ==> r.value.DrawOverlay?
                        && r.value.payload == Placement.Split(Lookup(item.members, "data").value.s, ',')[1]
  {
    if !item.JObject? then None
    else
      var m := item.members;
      match Lookup(m, "data")
      case Some(JString(d)) =>
        var parts := Placement.Split(d, ',');
        if |parts| < 2 || !codecs.decodes(parts[1]) then None
        else if Lookup(m, "x").None? || Lookup(m, "y").None? || Lookup(m, "width").None?
             || Lookup(m, "height").None? || Lookup(m, "opacity").None? then None
        else
          Some(DrawOverlay(parts[1], OverlayArgs(Lookup(m, "x").value, Lookup(m, "y").value,
                                                 Lookup(m, "width").value, Lookup(m, "height").value,
                                                 Lookup(m, "opacity").value,
                                                 GetOr(m, "rotation", JNumber(0.0)),
                                                 GetOr(m, "removeBackground", JBool(false)),
                                                 GetOr(m, "flipHorizontal", JBool(false)))))
      case _ => None
  }

  /** The overlays composited from `items`: each in order, up to the first one that raises. */
  function OverlayDraws(items: seq<Json>, codecs: Codecs): (draws: seq<Draw>)
    ensures |draws| <= |items|
    ensures forall i :: 0 <= i < |draws| ==> OverlayDraw(items[i], codecs) == Some(draws[i])
    decreases |items|
  {
    if |items| == 0 then []
    else
      match OverlayDraw(items[0], codecs)
      case None => []
      case Some(d) =>
        var rest := OverlayDraws(items[1..], codecs);
        assert forall i :: 1 <= i < |items| ==> items[i] == items[1..][i - 1];
        [d] + rest
  }

  /** Overlays are composited in list order, and processing stops at the first entry that raises. */
  lemma {:induction false} OverlayDrawsArePrefix(items: seq<Json>, codecs: Codecs)
    ensures |OverlayDraws(items, codecs)| <= |items|
    ensures forall i :: 0 <= i < |OverlayDraws(items, codecs)| ==>
              OverlayDraw(items[i], codecs) == Some(OverlayDraws(items, codecs)[i])
    ensures |OverlayDraws(items, codecs)| < |items| ==>
              OverlayDraw(items[|OverlayDraws(items, codecs)|], codecs).None?
    decreases |items|
  {
    if |items| > 0 && OverlayDraw(items[0], codecs).Some? {
      OverlayDrawsArePrefix(items[1..], codecs);
      var rest := OverlayDraws(items[1..], codecs);
      assert OverlayDraws(items, codecs) == [OverlayDraw(items[0], codecs).value] + rest;
      forall i | 1 <= i < |OverlayDraws(items, codecs)|
        ensures OverlayDraw(items[i], codecs) == Some(OverlayDraws(items, codecs)[i])
      {
        assert items[1..][i - 1] == items[i];
      }
      if |OverlayDraws(items, codecs)| < |items| {
        assert items[1..][|rest|] == items[|OverlayDraws(items, codecs)|];
      }
    }
  }

  /** The overlay loop of `process_layer`: composite each entry, stop when one raises (the except clause). */
  method ProcessOverlays(items: seq<Json>, codecs: Codecs) returns (draws: seq<Draw>)
    ensures draws == OverlayDraws(items, codecs)
  {
    draws := [];
    var i := 0;
    while i < |items|
      invariant 0 <= i <= |items|
      invariant draws + OverlayDraws(items[i..], codecs) == OverlayDraws(items, codecs)
      decreases |items| - i
    {
      var d := OverlayDraw(items[i], codecs);
      if d.None? {
        assert OverlayDraws(items[i..], codecs) == [];
        assert draws == OverlayDraws(items, codecs);
        return;
      }
      assert items[i..][1..] == items[i + 1..];
      assert OverlayDraws(items[i..], codecs) == [d.value] + OverlayDraws(items[i + 1..], codecs);
      draws := draws + [d.value];
      i := i + 1;
    }
    assert items[i..] == [];
  }

  /** The overlay layer: a decode error or a non-iterable document composites nothing. */
  function OverlayLayer(payload: string, codecs: Codecs): (draws: seq<Draw>)
    ensures codecs.parse(payload).None? ==> draws == []
    ensures codecs.parse(payload).Some? && codecs.parse(payload).value.JArray? ==>
              draws == OverlayDraws(codecs.parse(payload).value.items, codecs)
  {
    match codecs.parse(payload)
    case None => []
    case Some(document) =>
      match Iterate(document)
      case None => []
      case Some(items) => OverlayDraws(items, codecs)
  }

  /**
   * `process_layer`: the composites one entry of the order requests, or
   * Err when it raises (an unparsable text colour). An entry other than the
   * strings 'text', 'emoji' and 'overlay', or whose content is absent,
   * requests nothing.
   */
  function ProcessLayer(tag: Json, req: GenerateRequest, colour: Result<HexColour.Rgb, string>, codecs: Codecs)
    : (r: Result<seq<Draw>, string>)
    ensures r.Err? <==> tag == JString("text") && Truthy(req.text) && colour.Err?
    ensures r.Ok? ==> DrawDrawing !in r.value
  {
    if tag == JString("text") && Truthy(req.text) then
      match colour
      case Err(e) => Err(e)
      case Ok(color) =>
        Ok([DrawText(req.text.value, req.textX, req.textY, color, req.fontSize, req.textRotation)])
    else if tag == JString("emoji") && Truthy(req.emoji) then
      Ok([DrawEmoji(req.emoji.value, req.emojiX, req.emojiY, req.emojiSize, req.emojiRotation,
                    req.emojiFlipHorizontal)])
    else if tag == JString("overlay") && Truthy(req.overlayImages) then
      OverlayLayerNeverDraws(req.overlayImages.value, codecs);
      Ok(OverlayLayer(req.overlayImages.value, codecs))
    else Ok([])
  }

  /** An unknown entry, or a known one whose content is missing, leaves the composites as they are. */
  lemma UnknownOrEmptyLayerDrawsNothing(tag: Json, req: GenerateRequest, colour: Result<HexColour.Rgb, string>, codecs: Codecs)
    requires !(tag == JString("text") && Truthy(req.text))
    requires !(tag == JString("emoji") && Truthy(req.emoji))
    requires !(tag == JString("overlay") && Truthy(req.overlayImages))
    ensures ProcessLayer(tag, req, colour, codecs) == Ok([])
  {
  }

  /** The text layer fails exactly when the text is present and its colour does not parse. */
  lemma TextLayerFailsOnColour(req: GenerateRequest, colour: Result<HexColour.Rgb, string>, codecs: Codecs)
    requires Truthy(req.text)
    ensures ProcessLayer(JString("text"), req, colour, codecs).Err? <==> colour.Err?
    ensures colour.Ok? ==>
              ProcessLayer(JString("text"), req, colour, codecs)
              == Ok([DrawText(req.text.value, req.textX, req.textY, colour.value, req.fontSize, req.textRotation)])
  {
  }

  /**
   * The layer loop: `process_layer` folded from the left over the order,
   * the first raise ending it. `colour` is what hex_to_rgb(text_color)
   * gives, which the text layer evaluates each time it runs.
   */
  function FoldLayers(order: seq<Json>, draws: seq<Draw>, req: GenerateRequest,
                      colour: Result<HexColour.Rgb, string>, codecs: Codecs): (r: Result<seq<Draw>, string>)
    ensures r.Err? <==> Truthy(req.text) && colour.Err? && JString("text") in order
    ensures r.Ok? ==> draws <= r.value
    decreases |order|
  {
    if |order| == 0 then Ok(draws)
    else
      match ProcessLayer(order[0], req, colour, codecs)
      case Err(e) => Err(e)
      case Ok(more) => FoldLayers(order[1..], draws + more, req, colour, codecs)
  }

  /** The composites a fold produces do not depend on those made before: they are appended to them. */
  lemma {:induction false} FoldLayersExtends(order: seq<Json>, draws: seq<Draw>, req: GenerateRequest,
                                             colour: Result<HexColour.Rgb, string>, codecs: Codecs)
    ensures FoldLayers(order, draws, req, colour, codecs)
            == match FoldLayers(order, [], req, colour, codecs)
               case Err(e) => Err(e)
               case Ok(layered) => Ok(draws + layered)
    decreases |order|
  {
    if |order| == 0 {
      assert draws + [] == draws;
    } else {
      match ProcessLayer(order[0], req, colour, codecs)
      case Err(_) =>
      case Ok(more) =>
        var tail := order[1..];
        assert [] + more == more;
        assert FoldLayers(order, draws, req, colour, codecs) == FoldLayers(tail, draws + more, req, colour, codecs);
        assert FoldLayers(order, [], req, colour, codecs) == FoldLayers(tail, more, req, colour, codecs);
        FoldLayersExtends(tail, draws + more, req, colour, codecs);
        FoldLayersExtends(tail, more, req, colour, codecs);
        var rest := FoldLayers(tail, [], req, colour, codecs);
        if rest.Ok? {
          ConcatAssociates(draws, more, rest.value);
        }
    }
  }

  lemma ConcatAssociates(a: seq<Draw>, b: seq<Draw>, c: seq<Draw>)
    ensures (a + b) + c == a + (b + c)
  {
  }

  /** Folding over `a + b` is folding over `a`, then over `b` from where `a` left off. */
  lemma {:induction false} FoldLayersSplit(a: seq<Json>, b: seq<Json>, draws: seq<Draw>, req: GenerateRequest,
                                           colour: Result<HexColour.Rgb, string>, codecs: Codecs)
    ensures FoldLayers(a + b, draws, req, colour, codecs)
            == match FoldLayers(a, draws, req, colour, codecs)
               case Err(e) => Err(e)
               case Ok(mid) => FoldLayers(b, mid, req, colour, codecs)
    decreases |a|
  {
    if |a| == 0 {
      assert a + b == b;
    } else {
      assert (a + b)[0] == a[0];
      assert (a + b)[1..] == a[1..] + b;
      match ProcessLayer(a[0], req, colour, codecs)
      case Err(_) =>
      case Ok(more) => FoldLayersSplit(a[1..], b, draws + more, req, colour, codecs);
    }
  }

  /** Naming a layer twice composites it twice. */
  lemma RepeatedLayerDrawsTwice(req: GenerateRequest, colour: Result<HexColour.Rgb, string>, codecs: Codecs)
    requires Truthy(req.emoji)
    ensures var emoji := DrawEmoji(req.emoji.value, req.emojiX, req.emojiY, req.emojiSize,
                                   req.emojiRotation, req.emojiFlipHorizontal);
            FoldLayers([JString("emoji"), JString("emoji")], [], req, colour, codecs) == Ok([emoji, emoji])
  {
    var emoji := DrawEmoji(req.emoji.value, req.emojiX, req.emojiY, req.emojiSize,
                           req.emojiRotation, req.emojiFlipHorizontal);
    var order := [JString("emoji"), JString("emoji")];
    assert ProcessLayer(JString("emoji"), req, colour, codecs) == Ok([emoji]);
    assert order[1..] == [JString("emoji")];
    assert order[1..][1..] == [];
    assert order[1..][0] == JString("emoji");
    assert [emoji] + [emoji] == [emoji, emoji];
    assert FoldLayers(order[1..][1..], [emoji, emoji], req, colour, codecs) == Ok([emoji, emoji]);
    assert FoldLayers(order[1..], [emoji], req, colour, codecs) == Ok([emoji, emoji]);
    assert FoldLayers(order, [], req, colour, codecs) == FoldLayers(order[1..], [] + [emoji], req, colour, codecs);
    assert [] + [emoji] == [emoji];
  }

  /** No one-character string is a layer name, so an order given as a JSON string composites nothing. */
  lemma StringOrderDrawsNothing(s: string, req: GenerateRequest, colour: Result<HexColour.Rgb, string>, codecs: Codecs)
    ensures Iterate(JString(s)).Some?
    ensures FoldLayers(Iterate(JString(s)).value, [], req, colour, codecs) == Ok([])
  {
    SingleCharactersDrawNothing(Iterate(JString(s)).value, req, colour, codecs);
  }

  lemma {:induction false} SingleCharactersDrawNothing(order: seq<Json>, req: GenerateRequest,
                                                       colour: Result<HexColour.Rgb, string>, codecs: Codecs)
    requires forall i :: 0 <= i < |order| ==> order[i].JString? && |order[i].s| == 1
    ensures FoldLayers(order, [], req, colour, codecs) == Ok([])
    decreases |order|
  {
    if |order| > 0 {
      assert |order[0].s| == 1;
      assert ProcessLayer(order[0], req, colour, codecs) == Ok([]);
      assert FoldLayers(order, [], req, colour, codecs) == FoldLayers(order[1..], [] + [], req, colour, codecs);
      var none: seq<Draw> := [];
      assert none + none == none;
      SingleCharactersDrawNothing(order[1..], req, colour, codecs);
    }
  }

  /** One step of the fold from position i: the layer there either fails the fold or extends the composites. */
  lemma FoldStep(order: seq<Json>, i: nat, draws: seq<Draw>, req: GenerateRequest,
                 colour: Result<HexColour.Rgb, string>, codecs: Codecs)
    requires i < |order|
    ensures var step := ProcessLayer(order[i], req, colour, codecs);
            FoldLayers(order[i..], draws, req, colour, codecs)
            == if step.Err? then Err(step.error) else FoldLayers(order[i + 1..], draws + step.value, req, colour, codecs)
  {
    assert order[i..][0] == order[i] && order[i..][1..] == order[i + 1..];
  }

  /** The layer loop as the endpoint runs it: `result_path` is threaded through each `process_layer` call. */
  method ComposeLayers(order: seq<Json>, req: GenerateRequest, colour: Result<HexColour.Rgb, string>, codecs: Codecs)
    returns (r: Result<seq<Draw>, string>)
    ensures r == FoldLayers(order, [], req, colour, codecs)
  {
    var draws: seq<Draw> := [];
    var i := 0;
    while i < |order|
      invariant 0 <= i <= |order|
      invariant FoldLayers(order, [], req, colour, codecs) == FoldLayers(order[i..], draws, req, colour, codecs)
      decreases |order| - i
    {
      var step := ProcessLayer(order[i], req, colour, codecs);
      FoldStep(order, i, draws, req, colour, codecs);
      if step.Err? {
        return Err(step.error);
      }
      draws := draws + step.value;
      i := i + 1;
    }
    assert order[i..] == [];
    r := Ok(draws);
  }

  /** `not text and not emoji and not drawing_data and not overlay_images`, negated. */
  predicate HasContent(req: GenerateRequest)
  {
    Truthy(req.text) || Truthy(req.emoji) || req.hasDrawing || Truthy(req.overlayImages)
  }

  /** The drawing is composited after every ordered layer. */
  function WithDrawing(draws: seq<Draw>, req: GenerateRequest): (all: seq<Draw>)
    ensures |draws| <= |all| && all[..|draws|] == draws
    ensures req.hasDrawing <==> |all| == |draws| + 1 && all[|draws|] == DrawDrawing
    ensures !req.hasDrawing ==> all == draws
  {
    if req.hasDrawing then draws + [DrawDrawing] else draws
  }

  /**
   * The endpoint body once the text colour has been parsed, answering
   * `noContent` when the content check fails.
   */
  function Endpoint(req: GenerateRequest, colour: Result<HexColour.Rgb, string>, codecs: Codecs,
                    noContent: int): (r: Response)
    ensures r.Generated? ==> HasContent(req)
    ensures !HasContent(req) ==> r.Failed?
    ensures r.Failed? ==> r.status == 500 || (r.status == noContent && !HasContent(req))
  {
    match Iterate(LayerOrder(req, codecs))
    case None => Failed(500)
    case Some(order) =>
      match FoldLayers(order, [], req, colour, codecs)
      case Err(_) => Failed(500)
      case Ok(draws) =>
        if !HasContent(req) then Failed(noContent)
        else Generated(WithDrawing(draws, req))
  }

  /**
   * The endpoint AS WRITTEN: the HTTPException(400) of the content check is
   * raised inside the `try` whose `except Exception` turns every error,
   * that one included, into a 500.
   */
  function RespondAsWritten(req: GenerateRequest, codecs: Codecs): (r: Response)
    ensures r.Failed? ==> r.status == 500
    ensures !HasContent(req) ==> r == Failed(500)
  {
    Endpoint(req, HexColour.HexToRgb(req.textColor), codecs, 500)
  }

  /** The endpoint as intended: the same, except that the content check's 400 reaches the client. */
  function Respond(req: GenerateRequest, codecs: Codecs): (r: Response)
    ensures r.Failed? ==> r.status == 400 || r.status == 500
    ensures r == Failed(400) ==> !HasContent(req)
    ensures r.Generated? ==> HasContent(req)
  {
    Endpoint(req, HexColour.HexToRgb(req.textColor), codecs, 400)
  }

  /** The two agree on every request with content; as written, a request without content is always a 500. */
  lemma AsWrittenDiffersOnlyOnEmptyRequests(req: GenerateRequest, codecs: Codecs)
    ensures HasContent(req) ==> RespondAsWritten(req, codecs) == Respond(req, codecs)
    ensures !HasContent(req) ==> RespondAsWritten(req, codecs) == Failed(500)
  {
  }

  /** With nothing to draw, no layer can raise: the text layer is the only one that can, and it needs text. */
  lemma {:induction false} NoContentFoldsToNothing(order: seq<Json>, req: GenerateRequest,
                                                   colour: Result<HexColour.Rgb, string>, codecs: Codecs)
    requires !HasContent(req)
    ensures FoldLayers(order, [], req, colour, codecs) == Ok([])
    decreases |order|
  {
    if |order| > 0 {
      assert ProcessLayer(order[0], req, colour, codecs) == Ok([]);
      assert FoldLayers(order, [], req, colour, codecs) == FoldLayers(order[1..], [] + [], req, colour, codecs);
      var none: seq<Draw> := [];
      assert none + none == none;
      NoContentFoldsToNothing(order[1..], req, colour, codecs);
    }
  }

  /** 400 is answered exactly to a request with no content whose layer order can be iterated. */
  lemma BadRequestExactlyWithoutContent(req: GenerateRequest, codecs: Codecs)
    ensures Respond(req, codecs) == Failed(400) <==> !HasContent(req) && Iterate(LayerOrder(req, codecs)).Some?
  {
    if !HasContent(req) && Iterate(LayerOrder(req, codecs)).Some? {
      NoContentFoldsToNothing(Iterate(LayerOrder(req, codecs)).value, req, HexColour.HexToRgb(req.textColor), codecs);
    }
  }

  /** No layer requests the drawing composite. */
  lemma {:induction false} FoldNeverDraws(order: seq<Json>, draws: seq<Draw>, req: GenerateRequest,
                                          colour: Result<HexColour.Rgb, string>, codecs: Codecs)
    requires forall i :: 0 <= i < |draws| ==> draws[i] != DrawDrawing
    ensures FoldLayers(order, draws, req, colour, codecs).Ok? ==>
              forall i :: 0 <= i < |FoldLayers(order, draws, req, colour, codecs).value| ==>
                FoldLayers(order, draws, req, colour, codecs).value[i] != DrawDrawing
    decreases |order|
  {
    if |order| > 0 {
      match ProcessLayer(order[0], req, colour, codecs)
      case Err(_) =>
      case Ok(more) =>
        if Truthy(req.overlayImages) {
          OverlayLayerNeverDraws(req.overlayImages.value, codecs);
        }
        assert forall i :: 0 <= i < |more| ==> more[i] != DrawDrawing;
        FoldNeverDraws(order[1..], draws + more, req, colour, codecs);
    }
  }

  lemma OverlayLayerNeverDraws(payload: string, codecs: Codecs)
    ensures forall i :: 0 <= i < |OverlayLayer(payload, codecs)| ==> OverlayLayer(payload, codecs)[i].DrawOverlay?
  {
    match codecs.parse(payload)
    case None =>
    case Some(document) =>
      match Iterate(document)
      case None =>
      case Some(items) => OverlayDrawsArePrefix(items, codecs);
  }

  /** On success the drawing, when sent, is the last composite and the only drawing one. */
  lemma DrawingIsTopmost(req: GenerateRequest, codecs: Codecs)
    requires Respond(req, codecs).Generated?
    ensures var draws := Respond(req, codecs).draws;
            (req.hasDrawing <==> |draws| > 0 && draws[|draws| - 1] == DrawDrawing)
            && forall i :: 0 <= i < |draws| - 1 ==> draws[i] != DrawDrawing
  {
    var order := Iterate(LayerOrder(req, codecs)).value;
    FoldNeverDraws(order, [], req, HexColour.HexToRgb(req.textColor), codecs);
  }

  /** The corrected `/generate` endpoint, step by step: as the source runs it, except that the content check's 400 reaches the client. */
  method GenerateIcon(req: GenerateRequest, codecs: Codecs) returns (response: Response)
    ensures response == Respond(req, codecs)
  {
    var order := LayerOrder(req, codecs);
    var entries := Iterate(order);
    if entries.None? {
      return Failed(500);
    }
    var layered := ComposeLayers(entries.value, req, HexColour.HexToRgb(req.textColor), codecs);
    if layered.Err? {
      return Failed(500);
    }
    if !HasContent(req) {
      return Failed(400);
    }
    var draws := layered.value;
    if req.hasDrawing {
      draws := draws + [DrawDrawing];
    }
    response := Generated(draws);
  }

  /** The request with every field absent. */
  function EmptyRequest(): GenerateRequest
  {
    GenerateRequest(None, None, 260, 143, 260, 143, 48, 164, "#ffffff", 0, 0, false, false, None, None)
  }

  /** As written, the empty request is answered 500, not the intended 400. */
  lemma EmptyRequestAnswers500(codecs: Codecs)
    ensures RespondAsWritten(EmptyRequest(), codecs) == Failed(500)
    ensures Respond(EmptyRequest(), codecs) == Failed(400)
  {
    BadRequestExactlyWithoutContent(EmptyRequest(), codecs);
  }

  /** The default order composites the text, then the emoji, then the overlays. */
  lemma DefaultOrderFold(req: GenerateRequest, colour: HexColour.Rgb, codecs: Codecs)
    requires Truthy(req.text) && Truthy(req.emoji)
    ensures FoldLayers(DefaultLayerOrder.items, [], req, Ok(colour), codecs)
            == Ok([DrawText(req.text.value, req.textX, req.textY, colour, req.fontSize, req.textRotation),
                   DrawEmoji(req.emoji.value, req.emojiX, req.emojiY, req.emojiSize,
                             req.emojiRotation, req.emojiFlipHorizontal)]
                  + (if Truthy(req.overlayImages) then OverlayLayer(req.overlayImages.value, codecs) else []))
  {
    var text := DrawText(req.text.value, req.textX, req.textY, colour, req.fontSize, req.textRotation);
    var emoji := DrawEmoji(req.emoji.value, req.emojiX, req.emojiY, req.emojiSize,
                           req.emojiRotation, req.emojiFlipHorizontal);
    var overlays := if Truthy(req.overlayImages) then OverlayLayer(req.overlayImages.value, codecs) else [];
    var order := DefaultLayerOrder.items;
    assert order[1..] == [JString("emoji"), JString("overlay")];
    assert order[1..][1..] == [JString("overlay")];
    assert order[1..][1..][1..] == [];
    assert ProcessLayer(JString("text"), req, Ok(colour), codecs) == Ok([text]);
    assert ProcessLayer(JString("emoji"), req, Ok(colour), codecs) == Ok([emoji]);
    assert ProcessLayer(JString("overlay"), req, Ok(colour), codecs) == Ok(overlays);
    assert FoldLayers(order[1..][1..], [text, emoji], req, Ok(colour), codecs) == Ok([text, emoji] + overlays);
    assert [text] + [emoji] == [text, emoji];
    assert FoldLayers(order[1..], [text], req, Ok(colour), codecs) == Ok([text, emoji] + overlays);
    assert [] + [text] == [text];
  }

  /** So with no order given, a text, an emoji and a drawing come out in that order, the drawing on top. */
  lemma DefaultOrderComposites(req: GenerateRequest, colour: HexColour.Rgb, codecs: Codecs)
    requires !Truthy(req.layerOrder)
    requires Truthy(req.text) && Truthy(req.emoji) && req.hasDrawing && !Truthy(req.overlayImages)
    requires HexColour.HexToRgb(req.textColor) == Ok(colour)
    ensures Respond(req, codecs)
            == Generated([DrawText(req.text.value, req.textX, req.textY, colour, req.fontSize, req.textRotation),
                          DrawEmoji(req.emoji.value, req.emojiX, req.emojiY, req.emojiSize,
                                    req.emojiRotation, req.emojiFlipHorizontal),
                          DrawDrawing])
  {
    DefaultOrderEndpoint(req, colour, codecs);
  }

  /** The same once the colour has parsed: the endpoint body with no order given. */
  lemma DefaultOrderEndpoint(req: GenerateRequest, colour: HexColour.Rgb, codecs: Codecs)
    requires !Truthy(req.layerOrder)
    requires Truthy(req.text) && Truthy(req.emoji) && req.hasDrawing && !Truthy(req.overlayImages)
    ensures Endpoint(req, Ok(colour), codecs, 400)
            == Generated([DrawText(req.text.value, req.textX, req.textY, colour, req.fontSize, req.textRotation),
                          DrawEmoji(req.emoji.value, req.emojiX, req.emojiY, req.emojiSize,
                                    req.emojiRotation, req.emojiFlipHorizontal),
                          DrawDrawing])
  {
    DefaultOrderFold(req, colour, codecs);
    var layered := [DrawText(req.text.value, req.textX, req.textY, colour, req.fontSize, req.textRotation),
                    DrawEmoji(req.emoji.value, req.emojiX, req.emojiY, req.emojiSize,
                              req.emojiRotation, req.emojiFlipHorizontal)];
    assert layered + [] == layered;
  }
}
