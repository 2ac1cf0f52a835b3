/**
 * _contains_japanese (backend/hirsakam_icon_generator.py): whether a text
 * holds a hiragana, katakana, CJK ideograph or fullwidth-form code point,
 * which decides whether a Japanese-capable font is looked for.
 */
module JapaneseText {

  /** The inclusive code-point ranges of UNICODE_RANGES. */
  const HiraganaFirst: int := 0x3040
  const HiraganaLast: int := 0x309F
  const KatakanaFirst: int := 0x30A0
  const KatakanaLast: int := 0x30FF
  const KanjiFirst: int := 0x4E00
  const KanjiLast: int := 0x9FAF
  const FullwidthFirst: int := 0xFF00
  const FullwidthLast: int := 0xFFEF

  predicate InJapaneseRange(code: int)
  {
    (HiraganaFirst <= code <= HiraganaLast) || (KatakanaFirst <= code <= KatakanaLast)
    || (KanjiFirst <= code <= KanjiLast) || (FullwidthFirst <= code <= FullwidthLast)
  }

  /** The scan with early return over the characters (code points) of `text`. */
  function ContainsJapanese(text: string): (r: bool)
    ensures r <==> exists i :: 0 <= i < |text| && InJapaneseRange(text[i] as int)
    ensures |text| == 0 ==> !r
    decreases |text|
  {
    if |text| == 0 then false
    else if InJapaneseRange(text[0] as int) then true
    else
      var rest := ContainsJapanese(text[1..]);
      assert forall i :: 1 <= i < |text| ==> text[i] == text[1..][i - 1];
      rest
  }

  /** Appending text can only add Japanese characters. */
  lemma ContainsJapaneseConcat(a: string, b: string)
    ensures ContainsJapanese(a + b) <==> ContainsJapanese(a) || ContainsJapanese(b)
  {
    if ContainsJapanese(a + b) {
      var i :| 0 <= i < |a + b| && InJapaneseRange((a + b)[i] as int);
      if i >= |a| {
        assert b[i - |a|] == (a + b)[i];
      } else {
        assert a[i] == (a + b)[i];
      }
    }
    if ContainsJapanese(a) {
      var i :| 0 <= i < |a| && InJapaneseRange(a[i] as int);
      assert (a + b)[i] == a[i];
      assert InJapaneseRange((a + b)[i] as int);
    }
    if ContainsJapanese(b) {
      var i :| 0 <= i < |b| && InJapaneseRange(b[i] as int);
      assert (a + b)[|a| + i] == b[i];
      assert InJapaneseRange((a + b)[|a| + i] as int);
    }
  }

  /** Text below the hiragana block (all of ASCII, for one) never counts. */
  lemma BelowHiraganaIsNotJapanese(text: string)
    requires forall i :: 0 <= i < |text| ==> (text[i] as int) < HiraganaFirst
    ensures !ContainsJapanese(text)
  {
  }

  /** Plain ASCII never counts; hiragana, the long-vowel mark, a kanji and a fullwidth letter do ("あ", "ー", "漢", "Ａ"); the ideographic space does not. */
  lemma ContainsJapaneseExamples()
    ensures !ContainsJapanese("Hi!")
    ensures ContainsJapanese("Hi あ")
    ensures ContainsJapanese("ー")
    ensures ContainsJapanese("漢")
    ensures ContainsJapanese("Ａ")
    ensures !ContainsJapanese("　")
  {
    assert InJapaneseRange("Hi あ"[3] as int);
    assert InJapaneseRange("ー"[0] as int);
    assert InJapaneseRange("漢"[0] as int);
    assert InJapaneseRange("Ａ"[0] as int);
  }
}
