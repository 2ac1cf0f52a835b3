/**
 * hex_to_rgb of backend/app.py: the text colour of the form ("#rrggbb") is
 * turned into an RGB triple by stripping every leading '#' and reading the
 * slices [0:2], [2:4] and [4:6] with Python's int(..., 16). That parser is
 * modelled as Python defines it: surrounding white space, a sign, a "0x"
 * prefix and single underscores between digits are accepted, so a malformed
 * colour can still give a triple outside 0..255. The white space int()
 * strips is not quite str.isspace: it leaves the ASCII separators
 * U+001C..U+001F in place, and they make the literal invalid.
 */
module HexColour {
  import opened Wrappers
  import Placement

  /** An RGB triple as Python's tuple of three ints. */
  type Rgb = (int, int, int)

  /** The number of Unicode decimal digit runs (general category Nd, Unicode 15.0). */
  const DecimalRuns := 68

  /**
   * The first code point of the k-th decimal digit run: each run holds the
   * digits zero to nine in order, and int() reads every such character as
   * the ASCII digit of its value.
   */
  function RunZero(k: nat): int
    requires k < DecimalRuns
  {
    match k
    case 0 => 0x30
    case 1 => 0x660
    case 2 => 0x6F0
    case 3 => 0x7C0
    case 4 => 0x966
    case 5 => 0x9E6
    case 6 => 0xA66
    case 7 => 0xAE6
    case 8 => 0xB66
    case 9 => 0xBE6
    case 10 => 0xC66
    case 11 => 0xCE6
    case 12 => 0xD66
    case 13 => 0xDE6
    case 14 => 0xE50
    case 15 => 0xED0
    case 16 => 0xF20
    case 17 => 0x1040
    case 18 => 0x1090
    case 19 => 0x17E0
    case 20 => 0x1810
    case 21 => 0x1946
    case 22 => 0x19D0
    case 23 => 0x1A80
    case 24 => 0x1A90
    case 25 => 0x1B50
    case 26 => 0x1BB0
    case 27 => 0x1C40
    case 28 => 0x1C50
    case 29 => 0xA620
    case 30 => 0xA8D0
    case 31 => 0xA900
    case 32 => 0xA9D0
    case 33 => 0xA9F0
    case 34 => 0xAA50
    case 35 => 0xABF0
    case 36 => 0xFF10
    case 37 => 0x104A0
    case 38 => 0x10D30
    case 39 => 0x11066
    case 40 => 0x110F0
    case 41 => 0x11136
    case 42 => 0x111D0
    case 43 => 0x112F0
    case 44 => 0x11450
    case 45 => 0x114D0
    case 46 => 0x11650
    case 47 => 0x116C0
    case 48 => 0x11730
    case 49 => 0x118E0
    case 50 => 0x11950
    case 51 => 0x11C50
    case 52 => 0x11D50
    case 53 => 0x11DA0
    case 54 => 0x11F50
    case 55 => 0x16A60
    case 56 => 0x16AC0
    case 57 => 0x16B50
    case 58 => 0x1D7CE
    case 59 => 0x1D7D8
    case 60 => 0x1D7E2
    case 61 => 0x1D7EC
    case 62 => 0x1D7F6
    case 63 => 0x1E140
    case 64 => 0x1E2F0
    case 65 => 0x1E4F0
    case 66 => 0x1E950
    case _ => 0x1FBF0
  }

  /** `code` is a digit of run k. */
  predicate InRun(code: int, k: nat)
    requires k < DecimalRuns
  {
    RunZero(k) <= code < RunZero(k) + 10
  }

  /** The digit value of `code` in the first of the runs from k on that holds it. */
  function DecimalFrom(code: int, k: nat): (r: Option<int>)
    requires k <= DecimalRuns
    ensures r.Some? ==> 0 <= r.value < 10
    decreases DecimalRuns - k
  {
    if k == DecimalRuns then None
    else if InRun(code, k) then Some(code - RunZero(k))
    else DecimalFrom(code, k + 1)
  }

  /** Among the runs from k on, a code is a digit exactly when one holds it, and its value is its offset there. */
  lemma {:induction false} DecimalFromSpec(code: int, k: nat)
    requires k <= DecimalRuns
    ensures DecimalFrom(code, k).Some? <==> exists j :: k <= j < DecimalRuns && InRun(code, j)
    ensures DecimalFrom(code, k).Some? ==>
              exists j :: k <= j < DecimalRuns && InRun(code, j) && DecimalFrom(code, k).value == code - RunZero(j)
    decreases DecimalRuns - k
  {
    if k < DecimalRuns && !InRun(code, k) {
      DecimalFromSpec(code, k + 1);
    }
  }

  /** The value of a Unicode decimal digit; below the second run only '0'..'9' are digits. */
  function DecimalValue(c: char): (r: Option<int>)
    ensures r.Some? ==> 0 <= r.value < 10
    ensures c as int < RunZero(1) ==> (r.Some? <==> '0' <= c <= '9')
  {
    DecimalFromSpec(c as int, 0);
    DecimalFrom(c as int, 0)
  }

  /**
   * The white space int() strips from a literal: in ASCII only tab, line
   * feed, vertical tab, form feed, carriage return and space; above ASCII
   * every str.isspace character.
   */
  predicate IntSpace(c: char)
  {
    Placement.PyWhitespace(c) && !(0x1C <= c as int <= 0x1F)
  }

  /** No decimal digit is white space, so stripping never removes one. */
  lemma DigitIsNotSpace(c: char)
    requires DecimalValue(c).Some?
    ensures !Placement.PyWhitespace(c) && !IntSpace(c)
  {
    DecimalFromSpec(c as int, 0);
  }

  /**
   * The value of one hexadecimal digit: an ASCII digit, a letter a-f in
   * either case, or a digit of another script.
   */
  function HexDigitValue(c: char): (r: Option<int>)
    ensures r.Some? ==> 0 <= r.value < 16
    ensures r.Some? <==> DecimalValue(c).Some? || ('a' <= c <= 'f') || ('A' <= c <= 'F')
    ensures '0' <= c <= '9' ==> r == Some(c as int - '0' as int)
  {
    if '0' <= c <= '9' then Some(c as int - '0' as int)
    else if 'a' <= c <= 'f' then Some(c as int - 'a' as int + 10)
    else if 'A' <= c <= 'F' then Some(c as int - 'A' as int + 10)
    else DecimalValue(c)
  }

  /** Hexadecimal digits, each after the first optionally preceded by one underscore. */
  predicate DigitRun(d: string)
    decreases |d|
  {
    && |d| >= 1
    && HexDigitValue(d[0]).Some?
    && (|d| == 1 || if d[1] == '_' then DigitRun(d[2..]) else DigitRun(d[1..]))
  }

  /**
   * The digit part int(_, 16) accepts: a digit run, which may also begin
   * with one underscore when it follows a "0x" prefix.
   */
  predicate WellFormedDigits(d: string, afterPrefix: bool)
  {
    DigitRun(d) || (afterPrefix && |d| >= 2 && d[0] == '_' && DigitRun(d[1..]))
  }

  /** The value of the digits of `d`, underscores skipped. */
  function DigitsValue(d: string): nat
    decreases |d|
  {
    if |d| == 0 then 0
    else
      var init := DigitsValue(d[..|d| - 1]);
      match HexDigitValue(d[|d| - 1])
      case Some(v) => init * 16 + v
      case None => init
  }

  /**
   * Python's `int(s, 16)`, ValueError becoming Err: IntSpace white space at
   * either end is stripped first, then the rest must be an optionally signed,
   * optionally "0x"-prefixed run of digits.
   */
  function ParseHexInt(s: string): (r: Result<int, string>)
    ensures (forall i :: 0 <= i < |s| ==> Placement.PyWhitespace(s[i])) ==> r.Err?
    ensures |s| > 0 && 0x1C <= s[0] as int <= 0x1F ==> r.Err?
    decreases |s|
  {
    if |s| > 0 && IntSpace(s[0]) then ParseHexInt(s[1..])
    else if |s| > 0 && IntSpace(s[|s| - 1]) then ParseHexInt(s[..|s| - 1])
    else ParseTrimmed(s)
  }

  /** int(t, 16) for a `t` with no white space at its ends. */
  function ParseTrimmed(t: string): Result<int, string>
  {
    var signed := |t| > 0 && (t[0] == '+' || t[0] == '-');
    var body := if signed then t[1..] else t;
    var prefixed := |body| >= 2 && DecimalValue(body[0]) == Some(0) && (body[1] == 'x' || body[1] == 'X');
    var digits := if prefixed then body[2..] else body;
    if !WellFormedDigits(digits, prefixed) then Err("invalid literal for int() with base 16")
    else
      var v: int := DigitsValue(digits);
      Ok(if signed && t[0] == '-' then -v else v)
  }

  /** Two hexadecimal digits parse to the number they write. */
  lemma ParseTwoHexDigits(a: char, b: char)
    requires HexDigitValue(a).Some? && HexDigitValue(b).Some?
    ensures ParseHexInt([a, b]) == Ok(16 * HexDigitValue(a).value + HexDigitValue(b).value)
  {
    var s := [a, b];
    if DecimalValue(a).Some? {
      DigitIsNotSpace(a);
    }
    if DecimalValue(b).Some? {
      DigitIsNotSpace(b);
    }
    assert s[..1] == [a];
    assert [a][..0] == [];
    assert DigitsValue([a]) == HexDigitValue(a).value;
    assert s[1..] == [b];
    assert DigitRun([b]);
    assert DigitRun(s);
  }

  /** Python's slice `s[lo:hi]` for 0 <= lo <= hi: bounds past the end are clamped. */
  function Slice(s: string, lo: nat, hi: nat): (r: string)
    requires lo <= hi
    ensures hi <= |s| ==> r == s[lo..hi]
    ensures |r| == (if hi <= |s| then hi - lo else if lo <= |s| then |s| - lo else 0)
  {
    var a := if lo <= |s| then lo else |s|;
    var b := if hi <= |s| then hi else |s|;
    s[a..b]
  }

  /** `s.lstrip('#')`: every leading '#' is removed. */
  function LStripHash(s: string): (r: string)
    ensures |r| <= |s| && r == s[|s| - |r|..]
    ensures |r| == 0 || r[0] != '#'
    ensures forall i :: 0 <= i < |s| - |r| ==> s[i] == '#'
    decreases |s|
  {
    if |s| > 0 && s[0] == '#' then
      var r := LStripHash(s[1..]);
      assert forall i :: 1 <= i < |s| ==> s[1..][i - 1] == s[i];
      r
    else s
  }

  /** hex_to_rgb: the '#'s are stripped, then the three slices are parsed. */
  function HexToRgb(color: string): (r: Result<Rgb, string>)
    ensures |LStripHash(color)| <= 4 ==> r.Err?
  {
    RgbOfDigits(LStripHash(color))
  }

  /** The three slices of `h` in base 16; the first failing one raises (Err). */
  function RgbOfDigits(h: string): Result<Rgb, string>
  {
    var red := ParseHexInt(Slice(h, 0, 2));
    var green := ParseHexInt(Slice(h, 2, 4));
    var blue := ParseHexInt(Slice(h, 4, 6));
    if red.Err? then Err(red.error)
    else if green.Err? then Err(green.error)
    else if blue.Err? then Err(blue.error)
    else Ok((red.value, green.value, blue.value))
  }

  /** Any two-character string of hexadecimal digits parses to the number it writes. */
  lemma ParsePair(p: string)
    requires |p| == 2 && HexDigitValue(p[0]).Some? && HexDigitValue(p[1]).Some?
    ensures ParseHexInt(p) == Ok(16 * HexDigitValue(p[0]).value + HexDigitValue(p[1]).value)
  {
    assert p == [p[0], p[1]];
    ParseTwoHexDigits(p[0], p[1]);
  }

  /** `h` begins with six hexadecimal digits. */
  predicate SixHexDigits(h: string)
  {
    && |h| >= 6
    && HexDigitValue(h[0]).Some? && HexDigitValue(h[1]).Some? && HexDigitValue(h[2]).Some?
    && HexDigitValue(h[3]).Some? && HexDigitValue(h[4]).Some? && HexDigitValue(h[5]).Some?
  }

  /** The digit pair of `h` at lo..hi parses to the number it writes. */
  lemma PairParses(h: string, lo: nat, hi: nat, v: int)
    requires hi == lo + 2 <= |h|
    requires HexDigitValue(h[lo]).Some? && HexDigitValue(h[lo + 1]).Some?
    requires v == 16 * HexDigitValue(h[lo]).value + HexDigitValue(h[lo + 1]).value
    ensures ParseHexInt(Slice(h, lo, hi)) == Ok(v)
  {
    var p := Slice(h, lo, hi);
    assert p[0] == h[lo] && p[1] == h[lo + 1];
    ParsePair(p);
  }

  /** When all three slices parse, the triple is their values. */
  lemma RgbOfParts(h: string, red: int, green: int, blue: int)
    requires ParseHexInt(Slice(h, 0, 2)) == Ok(red)
    requires ParseHexInt(Slice(h, 2, 4)) == Ok(green)
    requires ParseHexInt(Slice(h, 4, 6)) == Ok(blue)
    ensures RgbOfDigits(h) == Ok((red, green, blue))
  {
  }

  /** Six digits whose pairs write the three channels parse to them. */
  lemma ChannelsOfDigits(h: string, red: int, green: int, blue: int)
    requires SixHexDigits(h)
    requires 16 * HexDigitValue(h[0]).value + HexDigitValue(h[1]).value == red
    requires 16 * HexDigitValue(h[2]).value + HexDigitValue(h[3]).value == green
    requires 16 * HexDigitValue(h[4]).value + HexDigitValue(h[5]).value == blue
    ensures RgbOfDigits(h) == Ok((red, green, blue))
  {
    PairParses(h, 0, 2, red);
    PairParses(h, 2, 4, green);
    PairParses(h, 4, 6, blue);
    RgbOfParts(h, red, green, blue);
  }

  /**
   * A colour whose first six characters after the '#'s are hexadecimal
   * digits parses, each component in 0..255 and equal to its digit pair.
   */
  lemma HexDigitsGiveChannels(color: string)
    requires var h := LStripHash(color); SixHexDigits(h)
    ensures HexToRgb(color).Ok?
    ensures var h := LStripHash(color); var c := HexToRgb(color).value;
      && c.0 == 16 * HexDigitValue(h[0]).value + HexDigitValue(h[1]).value
      && c.1 == 16 * HexDigitValue(h[2]).value + HexDigitValue(h[3]).value
      && c.2 == 16 * HexDigitValue(h[4]).value + HexDigitValue(h[5]).value
    ensures var c := HexToRgb(color).value;
      0 <= c.0 <= 255 && 0 <= c.1 <= 255 && 0 <= c.2 <= 255
  {
    var h := LStripHash(color);
    ChannelsOfDigits(h, 16 * HexDigitValue(h[0]).value + HexDigitValue(h[1]).value,
                     16 * HexDigitValue(h[2]).value + HexDigitValue(h[3]).value,
                     16 * HexDigitValue(h[4]).value + HexDigitValue(h[5]).value);
  }

  /** The lower-case digit the colour picker writes for 0..15. */
  function HexChar(d: int): (c: char)
    requires 0 <= d < 16
    ensures HexDigitValue(c) == Some(d)
  {
    if d < 10 then (48 + d) as char else (87 + d) as char
  }

  /** A channel as two lower-case hexadecimal digits. */
  function Hex2(n: int): (s: string)
    requires 0 <= n < 256
    ensures |s| == 2
  {
    [HexChar(n / 16), HexChar(n % 16)]
  }

  /** The two digits of Hex2(n) write n. */
  lemma Hex2Value(n: int)
    requires 0 <= n < 256
    ensures HexDigitValue(Hex2(n)[0]).Some? && HexDigitValue(Hex2(n)[1]).Some?
    ensures 16 * HexDigitValue(Hex2(n)[0]).value + HexDigitValue(Hex2(n)[1]).value == n
  {
    assert HexDigitValue(Hex2(n)[0]) == Some(n / 16);
    assert HexDigitValue(Hex2(n)[1]) == Some(n % 16);
  }

  /** Six digits written by Hex2 give back the three channels. */
  lemma ChannelsOfHex2(body: string, red: int, green: int, blue: int)
    requires 0 <= red < 256 && 0 <= green < 256 && 0 <= blue < 256
    requires |body| == 6
    requires body[0] == Hex2(red)[0] && body[1] == Hex2(red)[1]
    requires body[2] == Hex2(green)[0] && body[3] == Hex2(green)[1]
    requires body[4] == Hex2(blue)[0] && body[5] == Hex2(blue)[1]
    ensures RgbOfDigits(body) == Ok((red, green, blue))
  {
    Hex2Value(red);
    Hex2Value(green);
    Hex2Value(blue);
    ChannelsOfDigits(body, red, green, blue);
  }

  /** Writing a colour as "#rrggbb" and parsing it gives the colour back. */
  lemma HexToRgbRoundTrip(red: int, green: int, blue: int)
    requires 0 <= red < 256 && 0 <= green < 256 && 0 <= blue < 256
    ensures HexToRgb("#" + Hex2(red) + Hex2(green) + Hex2(blue)) == Ok((red, green, blue))
  {
    var body := Hex2(red) + Hex2(green) + Hex2(blue);
    var color := "#" + body;
    assert color == "#" + Hex2(red) + Hex2(green) + Hex2(blue);
    assert color[1..] == body;
    assert LStripHash(body) == body;
    assert LStripHash(color) == body;
    assert body[0] == Hex2(red)[0] && body[1] == Hex2(red)[1];
    assert body[2] == Hex2(green)[0] && body[3] == Hex2(green)[1];
    assert body[4] == Hex2(blue)[0] && body[5] == Hex2(blue)[1];
    ChannelsOfHex2(body, red, green, blue);
  }

  /** A sign is accepted: "-f" parses to -15. */
  lemma ParseNegativeDigit()
    ensures ParseHexInt("-f") == Ok(-15)
  {
    assert "-f"[1..] == "f";
    assert "f"[..0] == "";
    assert DigitsValue("f") == 15;
  }

  /** So "#-f0000", which the picker never writes, parses to (-15, 0, 0), outside 0..255. */
  lemma SignedColourLeavesRange()
    ensures HexToRgb("#-f0000") == Ok((-15, 0, 0))
  {
    var h := LStripHash("#-f0000");
    assert "#-f0000"[1..] == "-f0000";
    assert LStripHash("-f0000") == "-f0000";
    assert h == "-f0000";
    assert Slice(h, 0, 2) == "-f";
    ParseNegativeDigit();
    assert Slice(h, 2, 4) == "00" && Slice(h, 4, 6) == "00";
    ParsePair("00");
    assert ParseHexInt(Slice(h, 2, 4)) == Ok(0);
    assert ParseHexInt(Slice(h, 4, 6)) == Ok(0);
    RgbOfParts(h, -15, 0, 0);
  }

  /** Other scripts' digits count as well: the Arabic-Indic "#١٢٣٤٥٦" parses to (18, 52, 86). */
  lemma ArabicIndicColourParses()
    ensures HexToRgb("#١٢٣٤٥٦") == Ok((18, 52, 86))
  {
    var h := "١٢٣٤٥٦";
    assert "#١٢٣٤٥٦"[1..] == h;
    assert LStripHash(h) == h;
    assert DecimalValue('١') == Some(1) && DecimalValue('٢') == Some(2);
    assert DecimalValue('٣') == Some(3) && DecimalValue('٤') == Some(4);
    assert DecimalValue('٥') == Some(5) && DecimalValue('٦') == Some(6);
    ChannelsOfDigits(h, 18, 52, 86);
  }

  /**
   * The separators U+001C..U+001F, though str.isspace accepts them, are not
   * stripped: a digit with one before or after it is no literal, so a colour
   * that starts with one is rejected, while ordinary white space is stripped.
   */
  lemma SeparatorIsNotStripped()
    ensures ParseHexInt("\U{1C}f").Err? && ParseHexInt("f\U{1C}").Err?
    ensures HexToRgb("#\U{1C}f0000").Err?
    ensures ParseHexInt(" f\t") == Ok(15)
  {
    assert "f\U{1C}"[..1] == "f";
    assert "f"[..0] == "";
    assert " f\t"[1..] == "f\t";
    assert "f\t"[..1] == "f";
    assert DigitsValue("f") == 15;
    var h := LStripHash("#\U{1C}f0000");
    assert "#\U{1C}f0000"[1..] == "\U{1C}f0000";
    assert LStripHash("\U{1C}f0000") == "\U{1C}f0000";
    assert Slice(h, 0, 2) == "\U{1C}f";
  }

  /** A three-digit colour is rejected: its third slice is empty. */
  lemma ShortColourIsRejected()
    ensures HexToRgb("#fff").Err?
  {
    var g := LStripHash("#fff");
    assert "#fff"[1..] == "fff";
    assert LStripHash("fff") == "fff";
    assert Slice(g, 4, 6) == "";
    assert ParseHexInt(Slice(g, 4, 6)).Err?;
  }
}
