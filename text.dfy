/**
 * The string operations the bridge applies to text: Python's `str.strip()`
 * (with Python's own set of whitespace characters), `str.lower()` restricted
 * to ASCII letters, and `int(text)` for plain decimal text.
 */
module Text {
  import opened Options
  import opened Seqs

  /** The characters for which Python's `str.isspace()` holds. */
  predicate IsSpace(c: char)
  {
    || c == ' ' || c == '\t' || c == '\n' || c == '\r'
    || c == '\U{B}' || c == '\U{C}'
    || ('\U{1C}' <= c <= '\U{1F}')
    || c == '\U{85}' || c == '\U{A0}' || c == '\U{1680}'
    || ('\U{2000}' <= c <= '\U{200A}')
    || c == '\U{2028}' || c == '\U{2029}' || c == '\U{202F}' || c == '\U{205F}' || c == '\U{3000}'
  }

  /** Drops leading whitespace: what is left is a suffix of `s`. */
  function StripLeft(s: string): (r: string)
    ensures |r| <= |s| && r == s[|s| - |r|..]
  {
    if s != [] && IsSpace(s[0]) then StripLeft(s[1..]) else s
  }

  /** Drops trailing whitespace: what is left is a prefix of `s`. */
  function StripRight(s: string): (r: string)
    ensures |r| <= |s| && r == s[..|r|]
  {
    if s != [] && IsSpace(s[|s| - 1]) then StripRight(s[..|s| - 1]) else s
  }

  /** Python's `s.strip()`: `s` without its leading and trailing whitespace. */
  function Strip(s: string): (r: string)
    ensures |r| <= |s|
  {
    StripRight(StripLeft(s))
  }

  /** StripLeft removes exactly the leading run of whitespace. */
  lemma {:induction false} StripLeftSpec(s: string)
    ensures forall i :: 0 <= i < |s| - |StripLeft(s)| ==> IsSpace(s[i])
    ensures StripLeft(s) == [] || !IsSpace(StripLeft(s)[0])
  {
    if s != [] && IsSpace(s[0]) {
      StripLeftSpec(s[1..]);
      forall i | 0 < i < |s| - |StripLeft(s)| ensures IsSpace(s[i]) {
        assert s[i] == s[1..][i - 1];
      }
    }
  }

  /** StripRight removes exactly the trailing run of whitespace. */
  lemma {:induction false} StripRightSpec(s: string)
    ensures forall i :: |StripRight(s)| <= i < |s| ==> IsSpace(s[i])
    ensures StripRight(s) == [] || !IsSpace(StripRight(s)[|StripRight(s)| - 1])
  {
    if s != [] && IsSpace(s[|s| - 1]) {
      StripRightSpec(s[..|s| - 1]);
      forall i | |StripRight(s)| <= i < |s| - 1 ensures IsSpace(s[i]) {
        assert s[i] == s[..|s| - 1][i];
      }
    }
  }

  /** No whitespace is left at either end of what `strip()` returns. */
  lemma StripEnds(s: string)
    ensures Strip(s) == [] || (!IsSpace(Strip(s)[0]) && !IsSpace(Strip(s)[|Strip(s)| - 1]))
  {
    var l := StripLeft(s);
    var r := StripRight(l);
    StripLeftSpec(s);
    StripRightSpec(l);
    if r != [] {
      assert r[0] == l[0];
    }
  }

  /** `strip()` returns nothing exactly when the text is all whitespace. */
  lemma StripAllSpace(s: string)
    ensures Strip(s) == [] <==> forall i :: 0 <= i < |s| ==> IsSpace(s[i])
  {
    var l := StripLeft(s);
    StripLeftSpec(s);
    StripRightSpec(l);
  }

  /** Text with no whitespace at its ends is returned unchanged. */
  lemma StripFixed(s: string)
    requires s == [] || (!IsSpace(s[0]) && !IsSpace(s[|s| - 1]))
    ensures Strip(s) == s
  {
    if s != [] {
      assert StripLeft(s) == s;
    }
  }

  /**
   * What `strip()` promises: no whitespace is left at either end, the result
   * is empty exactly when `s` is all whitespace, and text with no whitespace
   * at its ends is returned unchanged.
   */
  lemma StripSpec(s: string)
    ensures Strip(s) == [] || (!IsSpace(Strip(s)[0]) && !IsSpace(Strip(s)[|Strip(s)| - 1]))
    ensures Strip(s) == [] <==> forall i :: 0 <= i < |s| ==> IsSpace(s[i])
    ensures (s == [] || (!IsSpace(s[0]) && !IsSpace(s[|s| - 1]))) ==> Strip(s) == s
  {
    StripEnds(s);
    StripAllSpace(s);
    if s == [] || (!IsSpace(s[0]) && !IsSpace(s[|s| - 1])) {
      StripFixed(s);
    }
  }

  /** What `strip()` keeps is one contiguous piece of the input. */
  lemma StripIsSlice(s: string)
    ensures var n := |s| - |StripLeft(s)|;
      n + |Strip(s)| <= |s| && Strip(s) == s[n..n + |Strip(s)|]
  {
    var l := StripLeft(s);
    var n := |s| - |l|;
    assert l == s[n..];
    assert Strip(s) == l[..|Strip(s)|];
  }

  /** Stripping keeps only characters of the input. */
  lemma StripKeeps(s: string, c: char)
    requires c !in s
    ensures c !in Strip(s)
  {
  }

  /** ASCII lower-casing, the part of Python's `str.lower()` the model keeps. */
  function LowerChar(c: char): (d: char)
    ensures !('A' <= d <= 'Z')
    ensures ('A' <= c <= 'Z') ==> d as int == c as int + 32
    ensures !('A' <= c <= 'Z') ==> d == c
  {
    if 'A' <= c <= 'Z' then (c as int + 32) as char else c
  }

  function Lower(s: string): (r: string)
    ensures |r| == |s|
    ensures forall i :: 0 <= i < |s| ==> r[i] == LowerChar(s[i])
  {
    seq(|s|, i requires 0 <= i < |s| => LowerChar(s[i]))
  }

  /** Text without upper-case ASCII letters is its own lower-case form. */
  lemma LowerFixed(s: string)
    requires forall i :: 0 <= i < |s| ==> !('A' <= s[i] <= 'Z')
    ensures Lower(s) == s
  {
  }

  /** Lower-casing twice is lower-casing once. */
  lemma LowerIdempotent(s: string)
    ensures Lower(Lower(s)) == Lower(s)
  {
    LowerFixed(Lower(s));
  }

  predicate IsDigit(c: char)
  {
    '0' <= c <= '9'
  }

  predicate AllDigits(s: string)
  {
    forall i :: 0 <= i < |s| ==> IsDigit(s[i])
  }

  lemma DigitNotSpace(c: char)
    requires IsDigit(c)
    ensures !IsSpace(c)
  {
  }

  /** The value of a string of decimal digits, most significant first. */
  function DigitsValue(ds: string): nat
    requires AllDigits(ds)
  {
    if ds == [] then 0
    else DigitsValue(ds[..|ds| - 1]) * 10 + (ds[|ds| - 1] as int - '0' as int)
  }

  /**
   * Python's `int(text)` for text made of optional surrounding whitespace,
   * an optional sign and ASCII decimal digits; anything else raises ValueError,
   * which is `None` here.
   */
  function ParseInt(text: string): (r: Option<int>)
    ensures r.Some? ==> Strip(text) != []
    ensures r.Some? && IsDigit(Strip(text)[0]) ==> r.value >= 0
    ensures r.Some? && Strip(text)[0] == '-' ==> r.value <= 0
  {
    var t := Strip(text);
    if t == [] then None
    else
      var negative := t[0] == '-';
      var body := if t[0] == '-' || t[0] == '+' then t[1..] else t;
      if body != [] && AllDigits(body) then
        var magnitude: int := DigitsValue(body);
        Some(if negative then -magnitude else magnitude)
      else None
  }

  /** The decimal rendering of a natural number, as Python's `str(n)`. */
  function Decimal(n: nat): (s: string)
    ensures s != [] && AllDigits(s)
    decreases n
  {
    var d := ((n % 10) + '0' as int) as char;
    if n < 10 then [d] else Decimal(n / 10) + [d]
  }

  lemma {:induction false} DecimalValue(n: nat)
    ensures DigitsValue(Decimal(n)) == n
    decreases n
  {
    var s := Decimal(n);
    if n >= 10 {
      DecimalValue(n / 10);
      assert s[..|s| - 1] == Decimal(n / 10);
    }
  }

  /** A non-empty run of digits parses to its value. */
  lemma ParseDigits(s: string)
    requires s != [] && AllDigits(s)
    ensures ParseInt(s) == Some(DigitsValue(s))
  {
    DigitNotSpace(s[0]);
    DigitNotSpace(s[|s| - 1]);
    StripFixed(s);
    assert s[0] != '-' && s[0] != '+';
  }

  /** `int(str(n)) == n`: decimal text parses back to the number it renders. */
  lemma ParseDecimal(n: nat)
    ensures ParseInt(Decimal(n)) == Some(n)
  {
    ParseDigits(Decimal(n));
    DecimalValue(n);
  }

  /** Text made of whitespace only. */
  predicate Blank(s: string)
  {
    forall i :: 0 <= i < |s| ==> IsSpace(s[i])
  }

  /** The sign `int()` accepts in front of the digits: none, `+` or `-`. */
  predicate Sign(sign: string)
  {
    sign == "" || sign == "+" || sign == "-"
  }

  /** Leading whitespace in front of a non-space is stripped away. */
  lemma {:induction false} StripLeftPadded(lead: string, rest: string)
    requires Blank(lead) && rest != [] && !IsSpace(rest[0])
    ensures StripLeft(lead + rest) == rest
    decreases |lead|
  {
    if lead == [] {
      assert lead + rest == rest;
    } else {
      assert (lead + rest)[1..] == lead[1..] + rest;
      StripLeftPadded(lead[1..], rest);
    }
  }

  /** Trailing whitespace after a non-space is stripped away. */
  lemma {:induction false} StripRightPadded(rest: string, trail: string)
    requires Blank(trail) && rest != [] && !IsSpace(rest[|rest| - 1])
    ensures StripRight(rest + trail) == rest
    decreases |trail|
  {
    if trail == [] {
      assert rest + trail == rest;
    } else {
      var shorter := trail[..|trail| - 1];
      assert (rest + trail)[..|rest + trail| - 1] == rest + shorter;
      StripRightPadded(rest, shorter);
    }
  }

  /** Whitespace around text with no whitespace at its ends is what `strip()` removes. */
  lemma StripPadded(lead: string, core: string, trail: string)
    requires Blank(lead) && Blank(trail)
    requires core != [] && !IsSpace(core[0]) && !IsSpace(core[|core| - 1])
    ensures Strip(lead + core + trail) == core
  {
    assert lead + core + trail == lead + (core + trail);
    StripLeftPadded(lead, core + trail);
    StripRightPadded(core, trail);
  }

  /** `int()` of text that strips to an optional sign and digits. */
  lemma ParseStripped(text: string, sign: string, digits: string)
    requires Strip(text) == sign + digits
    requires Sign(sign) && digits != [] && AllDigits(digits)
    ensures ParseInt(text) == Some(if sign == "-" then -(DigitsValue(digits) as int) else DigitsValue(digits) as int)
  {
    var t := sign + digits;
    if sign == "" {
      assert t == digits;
    } else {
      assert t[0] == sign[0];
      assert t[1..] == digits;
    }
  }

  /**
   * `int()` of an optional sign and decimal digits, with whitespace on either
   * side, is the value of the digits, negated after a minus sign.
   */
  lemma ParseSigned(lead: string, sign: string, digits: string, trail: string)
    requires Blank(lead) && Blank(trail) && Sign(sign)
    requires digits != [] && AllDigits(digits)
    ensures ParseInt(lead + sign + digits + trail)
         == Some(if sign == "-" then -(DigitsValue(digits) as int) else DigitsValue(digits) as int)
  {
    var core := sign + digits;
    DigitNotSpace(digits[0]);
    DigitNotSpace(digits[|digits| - 1]);
    assert core[|core| - 1] == digits[|digits| - 1];
    if sign == "" {
      assert core == digits;
    } else {
      assert core[0] == sign[0];
    }
    StripPadded(lead, core, trail);
    ConcatAssoc(lead, sign, digits);
    ParseStripped(lead + sign + digits + trail, sign, digits);
  }

  /**
   * `int()` succeeds only on such text: whitespace, an optional sign,
   * decimal digits, whitespace; any other text raises ValueError.
   */
  lemma ParseIntOnlyNumerals(text: string)
    requires ParseInt(text).Some?
    ensures var n := |text| - |StripLeft(text)|;
      var t := Strip(text);
      var sign := if t[0] == '+' || t[0] == '-' then t[..1] else [];
      && n + |t| <= |text|
      && text == text[..n] + sign + t[|sign|..] + text[n + |t|..]
      && Blank(text[..n]) && Blank(text[n + |t|..]) && Sign(sign)
      && t[|sign|..] != [] && AllDigits(t[|sign|..])
  {
    var n := |text| - |StripLeft(text)|;
    var t := Strip(text);
    NumeralShape(text);
    StripSurround(text);
    var sign: string := if t[0] == '+' || t[0] == '-' then t[..1] else [];
    assert sign + t[|sign|..] == t;
    SplitMiddle(text, text[..n], t, text[n + |t|..], sign, t[|sign|..]);
  }

  /** Cutting the middle part of a three-part text in two. */
  lemma SplitMiddle(text: string, a: string, t: string, b: string, x: string, y: string)
    requires text == a + t + b && t == x + y
    ensures text == a + x + y + b
  {
    ConcatAssoc(a, x, y);
  }

  /** What `int()` accepts, once stripped: an optional sign, then digits. */
  lemma NumeralShape(text: string)
    requires ParseInt(text).Some?
    ensures var t := Strip(text);
      var sign := if t[0] == '+' || t[0] == '-' then t[..1] else [];
      Sign(sign) && t[|sign|..] != [] && AllDigits(t[|sign|..])
  {
  }

  /** Text is its leading whitespace, the stripped text, and its trailing whitespace. */
  lemma StripSurround(text: string)
    ensures var n := |text| - |StripLeft(text)|;
      var t := Strip(text);
      && n + |t| <= |text|
      && text == text[..n] + t + text[n + |t|..]
      && Blank(text[..n]) && Blank(text[n + |t|..])
  {
    var l := StripLeft(text);
    LeadingBlank(text);
    TrailingBlank(l);
    Surround(text, l, Strip(text));
  }

  /** `text` is a blank part, `t`, and a blank part, when `t` begins its suffix `l` and blanks follow it there. */
  lemma Surround(text: string, l: string, t: string)
    requires |l| <= |text| && l == text[|text| - |l|..] && Blank(text[..|text| - |l|])
    requires |t| <= |l| && t == l[..|t|] && Blank(l[|t|..])
    ensures var n := |text| - |l|;
      && n + |t| <= |text|
      && text == text[..n] + t + text[n + |t|..]
      && Blank(text[..n]) && Blank(text[n + |t|..])
  {
    var n := |text| - |l|;
    assert t == text[n..n + |t|];
    assert text[n + |t|..] == l[|t|..];
    AroundSlice(text, n, t);
  }

  /** What StripLeft drops is whitespace. */
  lemma LeadingBlank(s: string)
    ensures Blank(s[..|s| - |StripLeft(s)|])
  {
    StripLeftSpec(s);
    var p := s[..|s| - |StripLeft(s)|];
    forall i | 0 <= i < |p| ensures IsSpace(p[i]) {
      assert p[i] == s[i];
    }
  }

  /** What StripRight drops is whitespace. */
  lemma TrailingBlank(s: string)
    ensures Blank(s[|StripRight(s)|..])
  {
    StripRightSpec(s);
    var q := s[|StripRight(s)|..];
    forall i | 0 <= i < |q| ensures IsSpace(q[i]) {
      assert q[i] == s[|StripRight(s)| + i];
    }
  }
}
