/**
 Python's numeric conversions as the parser uses them: `float(text)`,
 `int(text)` and `round(x, ndigits)`, over exact reals and integers.
 */
module Numbers {
  import opened Wrappers
  import opened Text

  function Pow10(n: nat): (r: nat)
    ensures r >= 1
  {
    if n == 0 then 1 else 10 * Pow10(n - 1)
  }

  /**
   An unsigned decimal literal: digits, optionally followed by a point and
   more digits, with at least one digit in all ("12", "12.", "12.5", ".5").
   */
  function ParseUnsigned(s: string): (r: Option<real>)
    ensures r.Some? ==> r.value >= 0.0
  {
    if '.' in s then
      var dot := IndexOf(s, '.');
      var whole, frac := s[..dot], s[dot + 1..];
      if AllDigits(whole) && AllDigits(frac) && |whole| + |frac| > 0
      then Some(DigitsValue(whole) as real + DigitsValue(frac) as real / Pow10(|frac|) as real)
      else None
    else if IsDigitRun(s) then Some(DigitsValue(s) as real)
    else None
  }

  /**
   U+001C..U+001F: whitespace to `str.strip()`, but not to `float` and
   `int`, which strip only ASCII whitespace (after mapping non-ASCII
   whitespace to a space). Such a character is not part of any numeral
   either, so wherever it stands, `float` and `int` raise.
   */
  predicate IsSeparator(c: char) {
    '\U{1c}' <= c <= '\U{1f}'
  }

  predicate NoSeparator(s: string) {
    forall i :: 0 <= i < |s| ==> !IsSeparator(s[i])
  }

  /**
   `float(text)`: surrounding whitespace is ignored, then an optional sign
   and a decimal literal; any U+001C..U+001F character makes it raise.
   */
  function PyFloat(text: string): (r: Option<real>)
    ensures Strip(text) == [] ==> r.None?
    ensures r.Some? ==> NoSeparator(text)
  {
    if NoSeparator(text) then SignedDecimal(Strip(text)) else None
  }

  /** An optional sign, then an unsigned decimal literal. */
  function SignedDecimal(t: string): (r: Option<real>)
    ensures t == [] ==> r.None?
    ensures r.Some? && t[0] == '-' ==> r.value <= 0.0
    ensures r.Some? && t[0] != '-' ==> r.value >= 0.0
  {
    if t == [] then None
    else if t[0] == '+' then ParseUnsigned(t[1..])
    else if t[0] == '-' then
      match ParseUnsigned(t[1..])
      case Some(x) => Some(-x)
      case None => None
    else ParseUnsigned(t)
  }

  /**
   `int(text)`: surrounding whitespace is ignored, then an optional sign and
   a run of digits; any U+001C..U+001F character makes it raise.
   */
  function PyInt(text: string): (r: Option<int>)
    ensures Strip(text) == [] ==> r.None?
    ensures r.Some? ==> NoSeparator(text)
  {
    var t := Strip(text);
    if t == [] || !NoSeparator(text) then None
    else if t[0] == '+' && IsDigitRun(t[1..]) then Some(DigitsValue(t[1..]))
    else if t[0] == '-' && IsDigitRun(t[1..]) then Some(-(DigitsValue(t[1..]) as int))
    else if IsDigitRun(t) then Some(DigitsValue(t))
    else None
  }

  /**
   Whitespace around a number never changes what `float` reads, as long as
   none of it is a U+001C..U+001F character; and whenever `float` reads a
   number, the text was free of those.
   */
  lemma PyFloatIgnoresSpace(text: string)
    ensures NoSeparator(text) ==> PyFloat(Strip(text)) == PyFloat(text)
    ensures PyFloat(text).Some? ==> PyFloat(Strip(text)) == PyFloat(text)
  {
    StripIdempotent(text);
    if NoSeparator(text) {
      StripKeepsNoSeparator(text);
    }
  }

  /** `strip()` only removes characters, so it brings in no U+001C..U+001F character. */
  lemma StripKeepsNoSeparator(text: string)
    requires NoSeparator(text)
    ensures NoSeparator(Strip(text))
  {
    var l := TrimLeft(text);
    NoSeparatorSuffix(text, |text| - |l|);
    var r := TrimRight(l);
    NoSeparatorPrefix(l, |r|);
  }

  /** A suffix of a text free of U+001C..U+001F is free of them too. */
  lemma NoSeparatorSuffix(s: string, i: nat)
    requires NoSeparator(s) && i <= |s|
    ensures NoSeparator(s[i..])
  {
    forall k | 0 <= k < |s| - i ensures !IsSeparator(s[i..][k]) {
      assert s[i..][k] == s[i + k];
    }
  }

  /** So is a prefix. */
  lemma NoSeparatorPrefix(s: string, j: nat)
    requires NoSeparator(s) && j <= |s|
    ensures NoSeparator(s[..j])
  {
    forall k | 0 <= k < j ensures !IsSeparator(s[..j][k]) {
      assert s[..j][k] == s[k];
    }
  }

  /**
   A run of digits followed by a U+001C..U+001F character: `strip()`
   removes the character, but `float` and `int` do not, so the text does
   not read as a number.
   */
  lemma SeparatorRejects(d: string, c: char)
    requires IsDigitRun(d) && IsSeparator(c)
    ensures Strip(d + [c]) == d
    ensures PyFloat(d + [c]).None? && PyInt(d + [c]).None?
  {
    assert IsDigit(d[0]) && IsDigit(d[|d| - 1]);
    StripTrailingSpace(d, c);
    var t := d + [c];
    assert !NoSeparator(t) by { assert IsSeparator(t[|t| - 1]); }
  }

  /** A run of digits reads as the number it denotes, under `float` and under `int`. */
  lemma DigitRunParses(d: string)
    requires IsDigitRun(d)
    ensures PyFloat(d) == Some(DigitsValue(d) as real)
    ensures PyInt(d) == Some(DigitsValue(d))
  {
    assert !IsSpace(d[0]) && !IsSpace(d[|d| - 1]) by {
      assert IsDigit(d[0]) && IsDigit(d[|d| - 1]);
    }
    StripNoSpaceEnds(d);
    assert NoSeparator(d) by {
      forall k | 0 <= k < |d| ensures !IsSeparator(d[k]) { assert IsDigit(d[k]); }
    }
    assert d[0] != '+' && d[0] != '-' by { assert IsDigit(d[0]); }
    assert '.' !in d by {
      forall k | 0 <= k < |d| ensures d[k] != '.' { assert IsDigit(d[k]); }
    }
  }

  /** A leading minus sign negates what `float` reads, and fails exactly when the unsigned text fails. */
  lemma PyFloatNegative(t: string)
    requires t != [] && Strip(t) == t && t[0] != '+' && t[0] != '-'
    ensures PyFloat("-" + t) == if PyFloat(t).Some? then Some(-PyFloat(t).value) else None
  {
    var m := "-" + t;
    assert m[1..] == t;
    assert !IsSpace(m[0]) && !IsSpace(m[|m| - 1]) by {
      assert m[0] == '-' && m[|m| - 1] == t[|t| - 1];
    }
    StripNoSpaceEnds(m);
    assert NoSeparator(m) <==> NoSeparator(t) by {
      assert !IsSeparator(m[0]);
      forall i | 0 < i < |m| ensures m[i] == t[i - 1] { }
      forall i | 0 <= i < |t| ensures t[i] == m[i + 1] { }
    }
  }

  /** The factor `10 ** places` that `round(x, places)` scales by. */
  function Scale(places: nat): (s: real)
    ensures s >= 1.0
  {
    Pow10(places) as real
  }

  /** `round(y)` to an integer, ties to the even neighbour (Python's rule). */
  function RoundHalfEven(y: real): (n: int)
    ensures -0.5 <= n as real - y <= 0.5
  {
    var f := y.Floor;
    var frac := y - f as real;
    if frac < 0.5 then f
    else if frac > 0.5 then f + 1
    else if f % 2 == 0 then f else f + 1
  }

  /** The number of `10 ** -places` steps that `round(x, places)` lands on. */
  function Steps(x: real, places: nat): (n: int)
    ensures -0.5 <= n as real - x * Scale(places) <= 0.5
  {
    RoundHalfEven(x * Scale(places))
  }

  /** `round(x, places)`, taken on the exact value of `x`. */
  function Round(x: real, places: nat): (r: real)
    ensures -0.5 / Scale(places) <= r - x <= 0.5 / Scale(places)
  {
    assert Scale(places) >= 1.0;
    assert -0.5 <= Steps(x, places) as real - x * Scale(places);
    assert Steps(x, places) as real - x * Scale(places) <= 0.5;
    ScaleBack(Steps(x, places) as real, x, Scale(places));
    Steps(x, places) as real / Scale(places)
  }

  lemma ScaleBack(a: real, x: real, scale: real)
    requires scale >= 1.0 && -0.5 <= a - x * scale <= 0.5
    ensures -0.5 / scale <= a / scale - x <= 0.5 / scale
  {
    assert a / scale - x == (a - x * scale) / scale;
  }

  lemma MulDivCancel(a: real, s: real)
    requires s != 0.0
    ensures a / s * s == a
  {
  }

  /** An integer is its own rounding. */
  lemma RoundHalfEvenInt(n: int)
    ensures RoundHalfEven(n as real) == n
  {
    assert (n as real).Floor == n;
  }

  /** Rounding a value that is already rounded to the same places changes nothing. */
  lemma RoundIdempotent(x: real, places: nat)
    ensures Round(Round(x, places), places) == Round(x, places)
  {
    var n := Steps(x, places);
    var r := Round(x, places);
    var sc := Scale(places);
    assert r == n as real / sc;
    MulDivCancel(n as real, sc);
    var y := r * sc;
    assert y == n as real;
    RoundHalfEvenInt(n);
    assert RoundHalfEven(y) == n;
    assert Steps(r, places) == RoundHalfEven(y);
  }

  /** Rounding never turns a value that is not positive into a positive one. */
  lemma RoundNonPositive(x: real, places: nat)
    requires x <= 0.0
    ensures Round(x, places) <= 0.0
  {
    assert x * Scale(places) <= 0.0;
    assert Steps(x, places) <= 0;
  }
}
