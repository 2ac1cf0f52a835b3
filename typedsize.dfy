/**
 * The font and emoji size fields as frontend/src/App.js actually holds
 * them. They start as numbers (48 and 164), but handleInputChange stores
 * the `<input type="number">`'s `value`, which is a string: empty or a
 * numeral. The wheel and the corner resize then compute `size + step`,
 * and JavaScript's `+` concatenates when either side is a string; only
 * `Math.min` and `Math.max` convert the result back to a number, giving
 * NaN for text such as "48-5". This module models those fields for whole
 * numerals and whole steps; Editor models the numeric sizes the code
 * evidently intends.
 */
module TypedSize {
  import opened Geometry
  import Editor

  /** A JavaScript number: finite (`real`) or NaN. */
  datatype JsNumber = Num(v: real) | NaN

  /** A size field: a number, or the string the number input reported. */
  datatype SizeField = Number(x: JsNumber) | Typed(s: string)

  predicate IsDigit(c: char)
  {
    '0' <= c <= '9'
  }

  predicate AllDigits(s: string)
  {
    forall i :: 0 <= i < |s| ==> IsDigit(s[i])
  }

  /** One or more decimal digits. */
  predicate Digits(s: string)
  {
    |s| > 0 && AllDigits(s)
  }

  /** A whole numeral: digits, optionally after one '-'. */
  predicate WholeNumeral(s: string)
  {
    Digits(s) || (|s| >= 2 && s[0] == '-' && Digits(s[1..]))
  }

  /** What a number input holding a whole number reports: "" when cleared, else a whole numeral. */
  predicate TypedWhole(s: string)
  {
    s == "" || WholeNumeral(s)
  }

  /** Strings made of digits and minus signs only. */
  predicate NumeralAlphabet(s: string)
  {
    forall i :: 0 <= i < |s| ==> IsDigit(s[i]) || s[i] == '-'
  }

  function Pow10(n: nat): (p: nat)
    ensures p >= 1
  {
    if n == 0 then 1 else 10 * Pow10(n - 1)
  }

  /** The number a run of digits writes. */
  function DigitsValue(s: string): nat
    requires AllDigits(s)
    decreases |s|
  {
    if |s| == 0 then 0
    else
      assert AllDigits(s[..|s| - 1]);
      DigitsValue(s[..|s| - 1]) * 10 + (s[|s| - 1] as int - '0' as int)
  }

  /** Writing digits after others shifts the first ones' value left by as many places. */
  lemma {:induction false} DigitsValueConcat(a: string, b: string)
    requires AllDigits(a) && AllDigits(b)
    ensures AllDigits(a + b)
    ensures DigitsValue(a + b) == DigitsValue(a) * Pow10(|b|) + DigitsValue(b)
    decreases |b|
  {
    if |b| == 0 {
      assert a + b == a;
    } else {
      var init := b[..|b| - 1];
      assert AllDigits(init);
      assert (a + b)[..|a + b| - 1] == a + init;
      DigitsValueConcat(a, init);
      var d := b[|b| - 1] as int - '0' as int;
      assert (a + b)[|a + b| - 1] == b[|b| - 1];
      assert DigitsValue(a + b) == DigitsValue(a + init) * 10 + d;
      assert DigitsValue(b) == DigitsValue(init) * 10 + d;
      assert Pow10(|b|) == 10 * Pow10(|init|);
      ShiftArithmetic(DigitsValue(a), Pow10(|init|), DigitsValue(init), d);
    }
  }

  /** The arithmetic step of DigitsValueConcat. */
  lemma ShiftArithmetic(x: int, p: int, y: int, d: int)
    ensures (x * p + y) * 10 + d == x * (10 * p) + (y * 10 + d)
  {
  }

  /** The value of a whole numeral. */
  function NumeralValue(s: string): int
    requires WholeNumeral(s)
  {
    if s[0] == '-' then -(DigitsValue(s[1..]) as int) else DigitsValue(s)
  }

  function DigitChar(d: int): (c: char)
    requires 0 <= d < 10
    ensures IsDigit(c) && c as int - '0' as int == d
  {
    (d + '0' as int) as char
  }

  /** `String(n)` for a natural number: its decimal digits. */
  function NatToString(n: nat): (s: string)
    ensures Digits(s) && DigitsValue(s) == n
    decreases n
  {
    if n < 10 then [DigitChar(n)]
    else
      var init := NatToString(n / 10);
      var s := init + [DigitChar(n % 10)];
      assert s[..|s| - 1] == init;
      s
  }

  /** `String(i)` for a whole number: a '-' before the digits of a negative one. */
  function IntToString(i: int): (s: string)
    ensures WholeNumeral(s) && NumeralValue(s) == i
    ensures (s[0] == '-') <==> i < 0
  {
    if i < 0 then
      var s := "-" + NatToString(-i);
      assert s[1..] == NatToString(-i);
      s
    else NatToString(i)
  }

  /**
   * JavaScript's ToNumber on a string of digits and minus signs: "" is 0,
   * a whole numeral its value, anything else ("48-5", "-") NaN.
   */
  function StringToNumber(s: string): JsNumber
    requires NumeralAlphabet(s)
  {
    if s == "" then Num(0.0)
    else if WholeNumeral(s) then Num(NumeralValue(s) as real)
    else NaN
  }

  /** ToNumber of a field: `Math.min` and `Math.max` apply it to their arguments. */
  function ToNumber(f: SizeField): JsNumber
    requires f.Typed? ==> NumeralAlphabet(f.s)
  {
    match f
    case Number(x) => x
    case Typed(s) => StringToNumber(s)
  }

  /** `size + step`: JavaScript's `+` adds to a number and appends `String(step)` to a string. */
  function Plus(f: SizeField, step: int): SizeField
  {
    match f
    case Number(Num(v)) => Number(Num(v + step as real))
    case Number(NaN) => Number(NaN)
    case Typed(s) => Typed(s + IntToString(step))
  }

  /** `Math.max(lo, Math.min(hi, x))`: a number is clamped, NaN passes through both. */
  function JsClamp(lo: real, hi: real, x: JsNumber): (r: JsNumber)
    requires lo <= hi
    ensures r.NaN? <==> x.NaN?
    ensures r.Num? ==> lo <= r.v <= hi
    ensures r.Num? && lo <= x.v <= hi ==> r.v == x.v
  {
    match x
    case NaN => NaN
    case Num(v) => Num(Clamp(lo, hi, v))
  }

  /** The number whose digits are those of numeral `s` followed by those of `step`. */
  function Appended(s: string, step: nat): int
    requires WholeNumeral(s)
  {
    var shifted := DigitsValue(NatToString(step)) + Pow10(|NatToString(step)|) *
      (if s[0] == '-' then DigitsValue(s[1..]) else DigitsValue(s));
    if s[0] == '-' then -shifted else shifted
  }

  /** A whole numeral is written with digits and minus signs. */
  lemma NumeralInAlphabet(s: string)
    requires WholeNumeral(s)
    ensures NumeralAlphabet(s)
  {
    if !Digits(s) {
      assert forall i :: 1 <= i < |s| ==> s[i] == s[1..][i - 1];
    }
  }

  /** A non-empty numeral followed by the text of a negative number is not a numeral. */
  lemma MinusInsideIsNotNumeral(s: string, t: string)
    requires WholeNumeral(s) && |t| > 0 && t[0] == '-'
    ensures !WholeNumeral(s + t)
  {
    var u := s + t;
    assert u[|s|] == '-';
    if |u| >= 2 && u[0] == '-' {
      assert u[1..][|s| - 1] == '-';
    }
  }

  /** A numeral followed by digits is a numeral whose value is the appended number. */
  lemma DigitsAfterNumeral(s: string, step: nat)
    requires WholeNumeral(s)
    ensures WholeNumeral(s + NatToString(step))
    ensures NumeralValue(s + NatToString(step)) == Appended(s, step)
  {
    var d := NatToString(step);
    var u := s + d;
    var n: int := DigitsValue(d);
    var p: int := Pow10(|d|);
    if s[0] == '-' {
      assert u[1..] == s[1..] + d;
      DigitsValueConcat(s[1..], d);
      var m: int := DigitsValue(s[1..]);
      assert u[0] == '-' && Digits(u[1..]);
      assert NumeralValue(u) == -(m * p + n);
      assert Appended(s, step) == -(n + p * m);
    } else {
      DigitsValueConcat(s, d);
      var m: int := DigitsValue(s);
      assert Digits(u);
      assert NumeralValue(u) == m * p + n;
      assert Appended(s, step) == n + p * m;
    }
  }

  /** A typed field plus a step: the text ToNumber then reads, and what it reads. */
  lemma TypedSum(s: string, step: int)
    requires TypedWhole(s)
    ensures NumeralAlphabet(s + IntToString(step))
    ensures StringToNumber(s + IntToString(step)).NaN? <==> s != "" && step < 0
    ensures s == "" ==> StringToNumber(s + IntToString(step)) == Num(step as real)
    ensures s != "" && step >= 0 ==> StringToNumber(s + IntToString(step)) == Num(Appended(s, step) as real)
  {
    var t := IntToString(step);
    NumeralInAlphabet(t);
    if s == "" {
      assert s + t == t;
    } else {
      NumeralInAlphabet(s);
      if step < 0 {
        MinusInsideIsNotNumeral(s, t);
      } else {
        DigitsAfterNumeral(s, step);
      }
    }
  }

  /**
   * The size a wheel tick or a resize leaves: `Math.max(lo, Math.min(hi,
   * size + step))`. A number is stepped and clamped; a cleared field acts
   * as 0; a typed numeral has the step's text appended, which is a larger
   * numeral for a positive step and NaN for a negative one.
   */
  function Adjusted(size: SizeField, step: int, lo: real, hi: real): (r: JsNumber)
    requires lo <= hi
    requires size.Typed? ==> TypedWhole(size.s)
    ensures r.Num? ==> lo <= r.v <= hi
    ensures r.NaN? <==> size == Number(NaN) || (size.Typed? && size.s != "" && step < 0)
    ensures size.Number? && size.x.Num? ==> r == Num(Clamp(lo, hi, size.x.v + step as real))
    ensures size == Typed("") ==> r == Num(Clamp(lo, hi, step as real))
    ensures size.Typed? && size.s != "" && step >= 0 ==> r == Num(Clamp(lo, hi, Appended(size.s, step) as real))
  {
    if size.Typed? then
      TypedSum(size.s, step);
      JsClamp(lo, hi, ToNumber(Plus(size, step)))
    else JsClamp(lo, hi, ToNumber(Plus(size, step)))
  }

  /** The wheel's step as a whole number. */
  function WheelIncrement(deltaY: real): (d: int)
    ensures d as real == Editor.WheelDelta(deltaY)
  {
    if deltaY > 0.0 then -5 else 5
  }

  /** handleWheelOnTextOverlay's new size for a field that may hold typed text. */
  function WheelSize(size: SizeField, deltaY: real, lo: real, hi: real): (r: JsNumber)
    requires lo <= hi
    requires size.Typed? ==> TypedWhole(size.s)
    ensures r.NaN? <==> size == Number(NaN) || (size.Typed? && size.s != "" && deltaY > 0.0)
    ensures r.Num? ==> lo <= r.v <= hi
  {
    Adjusted(size, WheelIncrement(deltaY), lo, hi)
  }

  /** On a numeric emoji size the wheel does what Editor.WheelForm does. */
  lemma NumericEmojiWheelAgrees(f: Editor.Form, deltaY: real)
    requires f.emoji != ""
    ensures WheelSize(Number(Num(f.emojiSize)), deltaY, MinElementSize, MaxElementSize)
         == Num(Editor.WheelForm(f, deltaY).emojiSize)
  {
  }

  /** On a numeric font size the wheel does what Editor.WheelForm does. */
  lemma NumericFontWheelAgrees(f: Editor.Form, deltaY: real)
    requires f.emoji == "" && f.text != ""
    ensures WheelSize(Number(Num(f.fontSize)), deltaY, MinFontSize, MaxFontSize)
         == Num(Editor.WheelForm(f, deltaY).fontSize)
  {
  }

  /** On a numeric emoji size a resize does what Editor.ResizeForm does. */
  lemma NumericEmojiResizeAgrees(f: Editor.Form, initialSize: real, delta: int)
    requires f.emoji != ""
    ensures Adjusted(Number(Num(initialSize)), delta, MinElementSize, MaxElementSize)
         == Num(Editor.ResizeForm(f, initialSize, delta as real).emojiSize)
  {
  }

  /** On a numeric font size a resize does what Editor.ResizeForm does, the step being a third of the drag. */
  lemma NumericFontResizeAgrees(f: Editor.Form, initialSize: real, step: int)
    requires f.emoji == "" && f.text != ""
    ensures Adjusted(Number(Num(initialSize)), step, MinFontSize, MaxFontSize)
         == Num(Editor.ResizeForm(f, initialSize, step as real * FontSizeDamping).fontSize)
  {
  }

  /** "48" followed by "5" is 485. */
  lemma Typed48Then5()
    ensures Appended("48", 5) == 485
  {
    assert NatToString(5) == "5";
    assert "48"[..1] == "4";
    assert DigitsValue("48") == 48;
  }

  /** "48" followed by "3" is 483. */
  lemma Typed48Then3()
    ensures Appended("48", 3) == 483
  {
    assert NatToString(3) == "3";
    assert "48"[..1] == "4";
    assert DigitsValue("48") == 48;
  }

  /**
   * A typed emoji size of "48" jumps to 485 on one wheel tick up, where
   * the numeric size 48 steps to 53.
   */
  lemma TypedEmojiWheelJumps()
    ensures WheelSize(Typed("48"), -1.0, MinElementSize, MaxElementSize) == Num(485.0)
    ensures Editor.WheelForm(Editor.Form("", "😀", 48.0, 48.0, "#ffffff"), -1.0).emojiSize == 53.0
  {
    Typed48Then5();
  }

  /** A typed font size of "48" jumps to the 200 limit on one wheel tick up. */
  lemma TypedFontWheelJumps()
    ensures WheelSize(Typed("48"), -1.0, MinFontSize, MaxFontSize) == Num(200.0)
  {
    Typed48Then5();
  }

  /** One wheel tick down on a typed size gives NaN ("48-5" is not a number). */
  lemma TypedWheelDownIsNaN()
    ensures WheelSize(Typed("48"), 1.0, MinElementSize, MaxElementSize) == NaN
    ensures WheelSize(Typed("48"), 1.0, MinFontSize, MaxFontSize) == NaN
  {
  }

  /**
   * Up then down does not restore a typed size: the first tick leaves a
   * number (485), which the second steps to 480.
   */
  lemma TypedWheelUpThenDown()
    ensures WheelSize(Number(WheelSize(Typed("48"), -1.0, MinElementSize, MaxElementSize)), 1.0,
                      MinElementSize, MaxElementSize) == Num(480.0)
  {
    TypedEmojiWheelJumps();
  }

  /** A resize that grows a typed emoji size of "48" by 3 gives 483, not 51. */
  lemma TypedResizeAppends()
    ensures Adjusted(Typed("48"), 3, MinElementSize, MaxElementSize) == Num(483.0)
  {
    Typed48Then3();
  }

  /** A resize that shrinks a typed size gives NaN. */
  lemma TypedResizeShrinkIsNaN()
    ensures Adjusted(Typed("48"), -3, MinElementSize, MaxElementSize) == NaN
  {
  }
}
