/**
 * The transparency clean-up download_emoji_image applies to a downloaded
 * emoji (backend/hirsakam_icon_generator.py): detect the background colour
 * among fully transparent pixels, make background and nearly transparent
 * pixels transparent and everything else opaque, and after the resize snap
 * the alpha channel to 0 or 255 once more. Pixel data is the RGBA sequence
 * getdata() yields; download, decoding and the resize itself are outside the
 * model.
 */
module EmojiPixels {
  import opened Wrappers

  type Channel = x: int | 0 <= x <= 255

  datatype Pixel = Pixel(r: Channel, g: Channel, b: Channel, a: Channel)

  datatype Rgb = Rgb(r: Channel, g: Channel, b: Channel)

  /** Pixels below this alpha count as background in the first pass. */
  const BackgroundAlphaThreshold: int := 32
  /** Pixels below this alpha become transparent after the resize. */
  const TransparentAlphaThreshold: int := 128

  const Clear: Pixel := Pixel(0, 0, 0, 0)

  function RgbOf(p: Pixel): Rgb
  {
    Rgb(p.r, p.g, p.b)
  }

  /** A pixel that takes part in background detection. */
  predicate FullyTransparent(p: Pixel)
  {
    p.a == 0
  }

  // ---------------------------------------------------------------------------
  // Background detection

  /** How many fully transparent pixels of `s` have colour `c`. */
  function TransparentCount(s: seq<Pixel>, c: Rgb): nat
    decreases |s|
  {
    if |s| == 0 then 0
    else TransparentCount(s[..|s| - 1], c) + (if FullyTransparent(s[|s| - 1]) && RgbOf(s[|s| - 1]) == c then 1 else 0)
  }

  /** The colours of fully transparent pixels, each once, in order of first appearance (the dict's key order). */
  function TransparentColours(s: seq<Pixel>): seq<Rgb>
    decreases |s|
  {
    if |s| == 0 then []
    else
      var prefix := TransparentColours(s[..|s| - 1]);
      var p := s[|s| - 1];
      if FullyTransparent(p) && RgbOf(p) !in prefix then prefix + [RgbOf(p)] else prefix
  }

  /** max(items, key=count): the index of the first key whose count no later key exceeds. */
  function MostFrequentIndex(keys: seq<Rgb>, s: seq<Pixel>): (j: nat)
    requires |keys| > 0
    ensures j < |keys|
    decreases |keys|
  {
    if |keys| == 1 then 0
    else
      var best := MostFrequentIndex(keys[..|keys| - 1], s);
      if TransparentCount(s, keys[|keys| - 1]) > TransparentCount(s, keys[best]) then |keys| - 1 else best
  }

  /** The background colour download_emoji_image detects, or None without transparent pixels. */
  function Background(s: seq<Pixel>): Option<Rgb>
  {
    if |TransparentColours(s)| == 0 then None else Some(TransparentColours(s)[MostFrequentIndex(TransparentColours(s), s)])
  }

  /** A colour is listed exactly when some fully transparent pixel has it; colours absent from the list have count 0. */
  lemma {:induction false} TransparentColoursSpec(s: seq<Pixel>)
    ensures forall c :: c in TransparentColours(s) <==> exists i :: 0 <= i < |s| && FullyTransparent(s[i]) && RgbOf(s[i]) == c
    ensures forall c :: c !in TransparentColours(s) ==> TransparentCount(s, c) == 0
    decreases |s|
  {
    if |s| > 0 {
      var prefix := s[..|s| - 1];
      TransparentColoursSpec(prefix);
      forall c
        ensures c in TransparentColours(s) <==> exists i :: 0 <= i < |s| && FullyTransparent(s[i]) && RgbOf(s[i]) == c
      {
        if c in TransparentColours(s) && !(c in TransparentColours(prefix)) {
          assert FullyTransparent(s[|s| - 1]) && RgbOf(s[|s| - 1]) == c;
        }
        if exists i :: 0 <= i < |s| && FullyTransparent(s[i]) && RgbOf(s[i]) == c {
          var i :| 0 <= i < |s| && FullyTransparent(s[i]) && RgbOf(s[i]) == c;
          if i < |s| - 1 {
            assert prefix[i] == s[i];
          }
        }
      }
    }
  }

  /** No key is more frequent than the chosen one, and every key listed before it is strictly less frequent. */
  lemma {:induction false} MostFrequentIndexSpec(keys: seq<Rgb>, s: seq<Pixel>)
    requires |keys| > 0
    ensures forall k :: 0 <= k < |keys| ==>
              TransparentCount(s, keys[k]) <= TransparentCount(s, keys[MostFrequentIndex(keys, s)])
    ensures forall k :: 0 <= k < MostFrequentIndex(keys, s) ==>
              TransparentCount(s, keys[k]) < TransparentCount(s, keys[MostFrequentIndex(keys, s)])
    decreases |keys|
  {
    if |keys| > 1 {
      var init := keys[..|keys| - 1];
      MostFrequentIndexSpec(init, s);
      var best := MostFrequentIndex(init, s);
      assert keys[best] == init[best];
      forall k | 0 <= k < |keys| - 1
        ensures keys[k] == init[k]
      {
      }
    }
  }

  /** The colours of a prefix of the pixels start the list of all colours: later pixels only append. */
  lemma {:induction false} ColoursOfPrefix(s: seq<Pixel>, n: nat)
    requires n <= |s|
    ensures TransparentColours(s[..n]) <= TransparentColours(s)
    decreases |s|
  {
    if n < |s| {
      var init := s[..|s| - 1];
      assert init[..n] == s[..n];
      ColoursOfPrefix(init, n);
    } else {
      assert s[..n] == s;
    }
  }

  /**
   * The detected background: none exactly when no pixel is fully
   * transparent; otherwise a colour of a fully transparent pixel that no
   * other colour outnumbers, and on a tie the one whose first transparent
   * pixel comes first (the dict keeps first-insertion order and max keeps
   * the first maximal item): a transparent pixel whose colour ties with the
   * background is at or after a transparent pixel of the background colour.
   */
  lemma BackgroundSpec(s: seq<Pixel>)
    ensures Background(s).None? <==> forall i :: 0 <= i < |s| ==> !FullyTransparent(s[i])
    ensures Background(s).Some? ==>
              exists i :: 0 <= i < |s| && FullyTransparent(s[i]) && RgbOf(s[i]) == Background(s).value
    ensures Background(s).Some? ==>
              forall c :: TransparentCount(s, c) <= TransparentCount(s, Background(s).value)
    ensures Background(s).Some? ==>
              forall i :: (0 <= i < |s| && FullyTransparent(s[i]) &&
                           TransparentCount(s, RgbOf(s[i])) == TransparentCount(s, Background(s).value)) ==>
                exists j :: 0 <= j <= i && FullyTransparent(s[j]) && RgbOf(s[j]) == Background(s).value
  {
    TransparentColoursSpec(s);
    var keys := TransparentColours(s);
    if |keys| == 0 {
      forall i | 0 <= i < |s|
        ensures !FullyTransparent(s[i])
      {
        assert RgbOf(s[i]) !in keys;
      }
    } else {
      var j := MostFrequentIndex(keys, s);
      MostFrequentIndexSpec(keys, s);
      assert keys[j] in keys;
      forall c
        ensures TransparentCount(s, c) <= TransparentCount(s, keys[j])
      {
        if c in keys {
          var k :| 0 <= k < |keys| && keys[k] == c;
        }
      }
      forall i | 0 <= i < |s| && FullyTransparent(s[i]) && TransparentCount(s, RgbOf(s[i])) == TransparentCount(s, keys[j])
        ensures exists j' :: 0 <= j' <= i && FullyTransparent(s[j']) && RgbOf(s[j']) == keys[j]
      {
        FirstOfTies(s, i, keys, j);
      }
    }
  }

  /** The step of BackgroundSpec for one transparent pixel whose colour ties with the chosen key. */
  lemma FirstOfTies(s: seq<Pixel>, i: nat, keys: seq<Rgb>, j: nat)
    requires keys == TransparentColours(s) && |keys| > 0 && j == MostFrequentIndex(keys, s)
    requires i < |s| && FullyTransparent(s[i]) && TransparentCount(s, RgbOf(s[i])) == TransparentCount(s, keys[j])
    ensures exists j' :: 0 <= j' <= i && FullyTransparent(s[j']) && RgbOf(s[j']) == keys[j]
  {
    var first := s[..i + 1];
    var seen := TransparentColours(first);
    TransparentColoursSpec(first);
    assert first[i] == s[i];
    assert RgbOf(s[i]) in seen;
    ColoursOfPrefix(s, i + 1);
    var k :| 0 <= k < |seen| && seen[k] == RgbOf(s[i]);
    assert keys[k] == seen[k];
    MostFrequentIndexSpec(keys, s);
    assert j <= k;
    assert keys[j] == seen[j] && seen[j] in seen;
    var j' :| 0 <= j' < |first| && FullyTransparent(first[j']) && RgbOf(first[j']) == keys[j];
    assert s[j'] == first[j'];
  }

  /** Two transparent white pixels outvote one transparent black pixel. */
  lemma BackgroundExample()
    ensures Background([Pixel(0, 0, 0, 0), Pixel(255, 255, 255, 0), Pixel(9, 9, 9, 200), Pixel(255, 255, 255, 0)])
         == Some(Rgb(255, 255, 255))
  {
    var s := [Pixel(0, 0, 0, 0), Pixel(255, 255, 255, 0), Pixel(9, 9, 9, 200), Pixel(255, 255, 255, 0)];
    assert s[..3] == [Pixel(0, 0, 0, 0), Pixel(255, 255, 255, 0), Pixel(9, 9, 9, 200)];
    assert s[..3][..2] == [Pixel(0, 0, 0, 0), Pixel(255, 255, 255, 0)];
    assert s[..3][..2][..1] == [Pixel(0, 0, 0, 0)];
    assert s[..3][..2][..1][..0] == [];
    var black, white := Rgb(0, 0, 0), Rgb(255, 255, 255);
    assert TransparentColours(s[..3][..2][..1]) == [black];
    assert TransparentColours(s[..3][..2]) == [black, white];
    assert TransparentColours(s) == [black, white];
    assert TransparentCount(s[..3][..2][..1], black) == 1;
    assert TransparentCount(s, black) == 1;
    assert TransparentCount(s[..3][..2][..1], white) == 0;
    assert TransparentCount(s[..3][..2], white) == 1;
    assert TransparentCount(s, white) == 2;
    assert [black, white][..1] == [black];
  }

  /** The counting loop: `color_counts` keyed by colour in first-seen order, each with its count. */
  method CountTransparentColours(pixels: seq<Pixel>) returns (counts: map<Rgb, nat>, order: seq<Rgb>)
    ensures order == TransparentColours(pixels)
    ensures forall c :: c in counts <==> c in order
    ensures forall c :: c in counts ==> counts[c] == TransparentCount(pixels, c)
  {
    counts := map[];
    order := [];
    var i := 0;
    while i < |pixels|
      invariant 0 <= i <= |pixels|
      invariant order == TransparentColours(pixels[..i])
      invariant forall c :: c in counts <==> c in order
      invariant forall c :: c in counts ==> counts[c] == TransparentCount(pixels[..i], c)
    {
      var p := pixels[i];
      assert pixels[..i + 1][..i] == pixels[..i];
      TransparentColoursSpec(pixels[..i]);
      if FullyTransparent(p) {
        var key := RgbOf(p);
        if key in counts {
          counts := counts[key := counts[key] + 1];
        } else {
          counts := counts[key := 1];
          order := order + [key];
        }
      }
      i := i + 1;
    }
    assert pixels[..i] == pixels;
  }

  /** The background detection: the colours counted, then the max over the dict's items by count. */
  method DetectBackground(pixels: seq<Pixel>) returns (background: Option<Rgb>)
    ensures background == Background(pixels)
  {
    var counts, order := CountTransparentColours(pixels);
    if |order| == 0 {
      return None;
    }
    var best := 0;
    var k := 1;
    while k < |order|
      invariant 1 <= k <= |order|
      invariant best == MostFrequentIndex(order[..k], pixels)
    {
      assert order[..k + 1][..k] == order[..k];
      if counts[order[k]] > counts[order[best]] {
        best := k;
      }
      k := k + 1;
    }
    assert order[..k] == order;
    return Some(order[best]);
  }

  // ---------------------------------------------------------------------------
  // The two passes

  /** First pass: background-coloured, fully or nearly transparent pixels become transparent, the rest opaque. */
  function CleanPixel(p: Pixel, background: Option<Rgb>): (q: Pixel)
    ensures q == Clear || q == p.(a := 255)
    ensures q == Clear <==> (p.a == 0 || (background.Some? && RgbOf(p) == background.value)
                              || p.a < BackgroundAlphaThreshold)
  {
    if p.a == 0 || (background.Some? && RgbOf(p) == background.value) || p.a < BackgroundAlphaThreshold then Clear
    else Pixel(p.r, p.g, p.b, 255)
  }

  /** Second pass: alpha below 128 becomes a transparent pixel, anything else is made opaque. */
  function BinarizePixel(p: Pixel): (q: Pixel)
    ensures q == Clear <==> p.a < TransparentAlphaThreshold
    ensures q != Clear ==> q == p.(a := 255)
  {
    if p.a < TransparentAlphaThreshold then Clear else Pixel(p.r, p.g, p.b, 255)
  }

  /** Every alpha value is 0 or 255. */
  predicate BinaryAlpha(s: seq<Pixel>)
  {
    forall i :: 0 <= i < |s| ==> s[i].a == 0 || s[i].a == 255
  }

  /** The first pass over all pixels, appending to `cleaned_data`. */
  method CleanPixels(pixels: seq<Pixel>, background: Option<Rgb>) returns (cleaned: seq<Pixel>)
    ensures |cleaned| == |pixels|
    ensures forall i :: 0 <= i < |pixels| ==> cleaned[i] == CleanPixel(pixels[i], background)
    ensures BinaryAlpha(cleaned)
  {
    cleaned := [];
    var i := 0;
    while i < |pixels|
      invariant 0 <= i <= |pixels|
      invariant |cleaned| == i
      invariant forall j :: 0 <= j < i ==> cleaned[j] == CleanPixel(pixels[j], background)
    {
      var p := pixels[i];
      var isBackground := p.a == 0 || (background.Some? && RgbOf(p) == background.value) || p.a < BackgroundAlphaThreshold;
      if isBackground {
        cleaned := cleaned + [Clear];
      } else {
        cleaned := cleaned + [Pixel(p.r, p.g, p.b, 255)];
      }
      i := i + 1;
    }
  }

  /** The second pass over the resized pixels, appending to `final_data`. */
  method BinarizeAlpha(pixels: seq<Pixel>) returns (result: seq<Pixel>)
    ensures |result| == |pixels|
    ensures forall i :: 0 <= i < |pixels| ==> result[i] == BinarizePixel(pixels[i])
    ensures BinaryAlpha(result)
  {
    result := [];
    var i := 0;
    while i < |pixels|
      invariant 0 <= i <= |pixels|
      invariant |result| == i
      invariant forall j :: 0 <= j < i ==> result[j] == BinarizePixel(pixels[j])
    {
      var p := pixels[i];
      if p.a < TransparentAlphaThreshold {
        result := result + [Clear];
      } else {
        result := result + [Pixel(p.r, p.g, p.b, 255)];
      }
      i := i + 1;
    }
  }

  /** The second pass changes nothing on pixels whose alpha is already binary, so it is idempotent. */
  lemma BinarizeFixesBinaryPixels(p: Pixel)
    requires p.a == 0 || p.a == 255
    requires p.a == 0 ==> p == Clear
    ensures BinarizePixel(p) == p
  {
  }

  /** Binarising twice is binarising once. */
  lemma BinarizeIdempotent(p: Pixel)
    ensures BinarizePixel(BinarizePixel(p)) == BinarizePixel(p)
  {
  }

  /** Without the resize in between, the second pass would leave the first pass's output untouched. */
  lemma SecondPassAfterFirstIsIdentity(p: Pixel, background: Option<Rgb>)
    ensures BinarizePixel(CleanPixel(p, background)) == CleanPixel(p, background)
  {
  }

  /** A pixel of the background colour is cleared, even when it is fully opaque. */
  lemma OpaqueBackgroundColourIsCleared(p: Pixel, background: Option<Rgb>)
    requires background == Some(RgbOf(p)) && p.a == 255
    ensures CleanPixel(p, background) == Clear
  {
  }

  /** The first pass over a whole image, as a value (the list `cleaned_data` ends up holding). */
  function CleanAll(pixels: seq<Pixel>, background: Option<Rgb>): (r: seq<Pixel>)
    ensures |r| == |pixels| && forall i :: 0 <= i < |pixels| ==> r[i] == CleanPixel(pixels[i], background)
  {
    seq(|pixels|, i requires 0 <= i < |pixels| => CleanPixel(pixels[i], background))
  }

  /**
   * The whole clean-up: detect the background, run the first pass, let
   * `resize` (PIL's LANCZOS resize to the requested size) produce new
   * pixels, and run the second pass on those. Whatever the resize does, the
   * result has binary alpha, and every opaque pixel keeps the colour the
   * resize gave it.
   */
  method CleanDownloadedEmoji(pixels: seq<Pixel>, resize: seq<Pixel> -> seq<Pixel>) returns (result: seq<Pixel>)
    ensures BinaryAlpha(result)
    ensures var resized := resize(CleanAll(pixels, Background(pixels)));
            |result| == |resized| && forall i :: 0 <= i < |resized| ==> result[i] == BinarizePixel(resized[i])
  {
    var background := DetectBackground(pixels);
    var cleaned := CleanPixels(pixels, background);
    assert cleaned == CleanAll(pixels, background);
    result := BinarizeAlpha(resize(cleaned));
  }
}
