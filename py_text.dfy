/** The string operations of Python's `str`, `int()` and `float()` that the
    response decoder relies on. */
module PyText {
  import opened PyValues

  predicate IsDigit(c: char) { '0' <= c <= '9' }

  predicate AllDigits(s: string) { forall i :: 0 <= i < |s| ==> IsDigit(s[i]) }

  /** The ASCII whitespace characters: those among the characters Python's
      `str.strip()` removes, and `int()` and `float()` ignore around a
      number, that this model knows. Python also counts further Unicode
      characters (`\x1c`-`\x1f`, `\x85`, `\xa0`, `\u2000`-`\u200a`,
      `\u3000`, ...) as whitespace; they are not modelled. */
  const Whitespace: set<char> := {' ', '\t', '\n', '\r', 11 as char, 12 as char}

  /** `s.endswith(suffix)`: s is some text followed by the suffix. */
  predicate EndsWith(s: string, suffix: string)
    ensures EndsWith(s, suffix) <==> exists p :: p + suffix == s
  {
    if |suffix| <= |s| && s[|s| - |suffix|..] == suffix then
      assert s[..|s| - |suffix|] + suffix == s;
      true
    else
      false
  }

  /** `s.rstrip(chars)`: drop trailing characters that belong to `chars`. */
  function RStrip(s: string, chars: set<char>): (r: string)
    ensures r <= s
    ensures r == [] || r[|r| - 1] !in chars
    ensures forall i :: |r| <= i < |s| ==> s[i] in chars
  {
    if s == [] || s[|s| - 1] !in chars then s else RStrip(s[..|s| - 1], chars)
  }

  /** `s.lstrip(chars)`: drop leading characters that belong to `chars`. */
  function LStrip(s: string, chars: set<char>): (r: string)
    ensures |r| <= |s| && s[|s| - |r|..] == r
    ensures r == [] || r[0] !in chars
    ensures forall i :: 0 <= i < |s| - |r| ==> s[i] in chars
  {
    if s == [] || s[0] !in chars then s
    else
      var r := LStrip(s[1..], chars);
      assert s[1..][|s| - 1 - |r|..] == s[|s| - |r|..];
      assert forall i :: 1 <= i < |s| - |r| ==> s[i] == s[1..][i - 1];
      r
  }

  /** `s.strip()`: no whitespace is left at either end, and a text with
      none there is its own strip. */
  function Strip(s: string): (r: string)
    ensures |r| <= |s|
    ensures r == [] || (r[0] !in Whitespace && r[|r| - 1] !in Whitespace)
    ensures s == [] || (s[0] !in Whitespace && s[|s| - 1] !in Whitespace) ==> r == s
  {
    LStrip(RStrip(s, Whitespace), Whitespace)
  }

  /** Everything of `s` before index i and from index j on is whitespace. */
  predicate WhitespaceAround(s: string, i: nat, j: nat) {
    i <= j <= |s|
    && (forall k :: 0 <= k < i ==> s[k] in Whitespace)
    && (forall k :: j <= k < |s| ==> s[k] in Whitespace)
  }

  /** `s.strip()` is a slice of `s`: what it removed on either side is
      whitespace. */
  lemma StripRemovesOnlyWhitespace(s: string)
    ensures exists i: nat, j: nat :: WhitespaceAround(s, i, j) && Strip(s) == s[i..j]
  {
    var p := RStrip(s, Whitespace);
    var r := LStrip(p, Whitespace);
    var i, j := |p| - |r|, |p|;
    assert p == s[..j];
    assert forall k :: 0 <= k < i ==> s[k] == p[k];
    assert WhitespaceAround(s, i, j) && r == s[i..j];
  }

  /** `s.split(sep)[0]`: the text before the first `sep`, or all of `s`. */
  function SplitHead(s: string, sep: char): (r: string)
    ensures r <= s
    ensures sep !in r
    ensures r == s || s[|r|] == sep
  {
    if s == [] || s[0] == sep then [] else [s[0]] + SplitHead(s[1..], sep)
  }

  function DigitValue(c: char): nat
    requires IsDigit(c)
  {
    c as int - '0' as int
  }

  function DigitChar(d: nat): (c: char)
    requires d < 10
    ensures IsDigit(c) && DigitValue(c) == d
  {
    ('0' as int + d) as char
  }

  /** The number a string of decimal digits denotes. */
  function DigitsValue(s: string): nat
    requires AllDigits(s)
  {
    if s == [] then 0 else 10 * DigitsValue(s[..|s| - 1]) + DigitValue(s[|s| - 1])
  }

  /** `str(n)` for a natural number. */
  function NatToString(n: nat): (r: string)
    ensures r != [] && AllDigits(r)
  {
    if n < 10 then [DigitChar(n)] else NatToString(n / 10) + [DigitChar(n % 10)]
  }

  /** `str(i)` */
  function IntToString(i: int): (r: string)
    ensures r != [] && IsDigit(r[|r| - 1])
  {
    if i < 0 then "-" + NatToString(-i) else NatToString(i)
  }

  /** `int(s)` in base 10: surrounding whitespace, an optional sign, then at
      least one decimal digit; anything else is a ValueError, here `None`.
      Every text `int` accepts, `float` accepts with the same value. */
  function ParseInt(s: string): (r: Option<int>)
    ensures r.Some? ==> ParseFloat(s) == Some(r.value as real)
  {
    var t := Strip(s);
    if t != [] && (t[0] == '-' || t[0] == '+') then
      (if |t| > 1 && AllDigits(t[1..]) then
         var v := DigitsValue(t[1..]);
         UnsignedDecimalOfDigits(t[1..]);
         SignedIntIsFloat(s, t, v);
         Some(if t[0] == '-' then -(v as int) else v)
       else None)
    else if t != [] && AllDigits(t) then
      UnsignedDecimalOfDigits(t);
      Some(DigitsValue(t))
    else None
  }

  /** A sign before an unsigned literal worth v: `float` reads it as v or -v. */
  lemma SignedIntIsFloat(s: string, t: string, v: nat)
    requires t == Strip(s) && |t| > 1 && (t[0] == '-' || t[0] == '+')
    requires ParseUnsignedDecimal(t[1..]) == Some(v as real)
    ensures ParseFloat(s) == Some((if t[0] == '-' then -(v as int) else v) as real)
  {
  }

  /** The value of `0.<f>` for a string of digits f. */
  function FractionValue(f: string): (r: real)
    requires AllDigits(f)
    ensures 0.0 <= r < 1.0
  {
    if f == [] then 0.0 else (DigitValue(f[0]) as real + FractionValue(f[1..])) / 10.0
  }

  /** The index of the first `c` in `s`, or |s|. */
  function IndexOfChar(s: string, c: char): (k: nat)
    ensures k <= |s| && c !in s[..k]
    ensures k < |s| ==> s[k] == c
  {
    if s == [] || s[0] == c then 0 else 1 + IndexOfChar(s[1..], c)
  }

  /** An unsigned decimal literal `<digits>[.<digits>]` with at least one
      digit, read exactly. */
  function ParseUnsignedDecimal(t: string): (r: Option<real>)
    ensures r.Some? ==> t != [] && r.value >= 0.0
  {
    var k := IndexOfChar(t, '.');
    var whole, frac := t[..k], if k < |t| then t[k + 1..] else [];
    if (k < |t| || whole != []) && (whole != [] || frac != []) && AllDigits(whole) && AllDigits(frac) then
      Some(DigitsValue(whole) as real + FractionValue(frac))
    else None
  }

  /** `float(s)` restricted to decimal notation: surrounding whitespace, an
      optional sign, then `<digits>[.<digits>]` or `.<digits>`. Only a
      leading minus sign gives a negative number. */
  function ParseFloat(s: string): (r: Option<real>)
    ensures r.Some? ==> Strip(s) != [] && (r.value < 0.0 ==> Strip(s)[0] == '-')
  {
    var t := Strip(s);
    if t != [] && (t[0] == '-' || t[0] == '+') then
      match ParseUnsignedDecimal(t[1..])
      case None => None
      case Some(x) => Some(if t[0] == '-' then -x else x)
    else ParseUnsignedDecimal(t)
  }

  /** `int(x)` for a float: truncation toward zero. */
  function Truncate(x: real): int {
    if x >= 0.0 then x.Floor else -((-x).Floor)
  }

  /** `int(v)` for any decoded value. */
  function PyInt(v: Value): (r: Result<int>)
    ensures r.Err? ==> v.Str? && r.error == ValueError
  {
    match v
    case Bool(b) => Ok(if b then 1 else 0)
    case Int(i) => Ok(i)
    case Float(x) => Ok(Truncate(x))
    case Str(s) => match ParseInt(s) case Some(i) => Ok(i) case None => Err(ValueError)
  }

  // --- Lemmas -------------------------------------------------------------

  /** Digits of `str(n)` read back as n. */
  lemma {:induction false} NatToStringRoundTrip(n: nat)
    ensures DigitsValue(NatToString(n)) == n
  {
    if n >= 10 {
      var s := NatToString(n);
      NatToStringRoundTrip(n / 10);
      assert s[..|s| - 1] == NatToString(n / 10);
    }
  }

  /** Appending characters that are all stripped leaves a stripped-free
      prefix unchanged under `rstrip`. */
  lemma {:induction false} RStripAppend(p: string, pad: string, chars: set<char>)
    requires p == [] || p[|p| - 1] !in chars
    requires forall i :: 0 <= i < |pad| ==> pad[i] in chars
    ensures RStrip(p + pad, chars) == p
  {
    if pad == [] {
      assert p + pad == p;
    } else {
      assert (p + pad)[..|p + pad| - 1] == p + pad[..|pad| - 1];
      RStripAppend(p, pad[..|pad| - 1], chars);
    }
  }

  /** A plain run of digits has no whitespace at either end. */
  lemma DigitsStripped(d: string)
    requires d != [] && AllDigits(d)
    ensures Strip(d) == d
  {
    assert IsDigit(d[0]) && IsDigit(d[|d| - 1]);
    assert d[0] !in Whitespace && d[|d| - 1] !in Whitespace;
  }

  /** A minus sign before a run of digits is not stripped either. */
  lemma NegativeDigitsStripped(s: string, d: string)
    requires d != [] && AllDigits(d) && s == "-" + d
    ensures Strip(s) == s && s[1..] == d
  {
    assert s[|s| - 1] == d[|d| - 1] && IsDigit(d[|d| - 1]);
    assert s[0] !in Whitespace && s[|s| - 1] !in Whitespace;
  }

  /** `int(d)` for a run of digits is the number they denote. */
  lemma {:induction false} ParseIntOfDigits(d: string)
    requires d != [] && AllDigits(d)
    ensures ParseInt(d) == Some(DigitsValue(d) as int)
  {
    DigitsStripped(d);
    assert IsDigit(d[0]) && d[0] != '-' && d[0] != '+';
  }

  /** `int(s)` for a minus sign before a run of digits d denoting -v is v. */
  lemma ParseIntOfNegativeDigits(s: string, d: string, v: int)
    requires d != [] && AllDigits(d) && s == "-" + d && DigitsValue(d) == -v
    ensures ParseInt(s) == Some(v)
  {
    NegativeDigitsStripped(s, d);
  }

  /** The text of a non-negative integer is its digits. */
  lemma NonNegativeIntText(i: int)
    requires i >= 0
    ensures IntToString(i) == NatToString(i)
  {
  }

  /** The text of a negative integer is a minus sign before its magnitude. */
  lemma NegativeIntText(i: int)
    requires i < 0
    ensures IntToString(i) == "-" + NatToString(-i)
  {
  }

  /** `int(str(i)) == i`. */
  lemma IntToStringRoundTrip(i: int)
    ensures ParseInt(IntToString(i)) == Some(i)
  {
    if i < 0 {
      NegativeIntRoundTrip(i);
    } else {
      NonNegativeIntRoundTrip(i);
    }
  }

  lemma NegativeIntRoundTrip(i: int)
    requires i < 0
    ensures ParseInt(IntToString(i)) == Some(i)
  {
    NegativeIntText(i);
    NatToStringRoundTrip(-i);
    ParseIntOfNegativeDigits(IntToString(i), NatToString(-i), i);
  }

  lemma NonNegativeIntRoundTrip(i: int)
    requires i >= 0
    ensures ParseInt(IntToString(i)) == Some(i)
  {
    NonNegativeIntText(i);
    NatToStringRoundTrip(i);
    ParseIntOfDigits(NatToString(i));
  }

  /** `float(d)` for a run of digits is the number they denote. */
  lemma ParseFloatOfDigits(d: string)
    requires d != [] && AllDigits(d)
    ensures ParseFloat(d) == Some(DigitsValue(d) as real)
  {
    DigitsStripped(d);
    UnsignedDecimalOfDigits(d);
    assert IsDigit(d[0]);
  }

  /** `float(s)` for a minus sign before a run of digits d denoting -v is v. */
  lemma ParseFloatOfNegativeDigits(s: string, d: string, v: int)
    requires d != [] && AllDigits(d) && s == "-" + d && DigitsValue(d) == -v
    ensures ParseFloat(s) == Some(v as real)
  {
    NegativeDigitsStripped(s, d);
    UnsignedDecimalOfDigits(d);
    NegatedFloat(s, DigitsValue(d) as real);
  }

  /** `float(t)` of a stripped `-<literal>` negates the literal's value. */
  lemma NegatedFloat(t: string, x: real)
    requires t != [] && Strip(t) == t && t[0] == '-'
    requires ParseUnsignedDecimal(t[1..]) == Some(x)
    ensures ParseFloat(t) == Some(-x)
  {
  }

  /** `float(str(i)) == i`: an integer's text is also a float literal. */
  lemma IntToStringIsFloat(i: int)
    ensures ParseFloat(IntToString(i)) == Some(i as real)
  {
    if i < 0 {
      NegativeIntIsFloat(i);
    } else {
      NonNegativeIntIsFloat(i);
    }
  }

  lemma NegativeIntIsFloat(i: int)
    requires i < 0
    ensures ParseFloat(IntToString(i)) == Some(i as real)
  {
    NegativeIntText(i);
    NatToStringRoundTrip(-i);
    ParseFloatOfNegativeDigits(IntToString(i), NatToString(-i), i);
  }

  lemma NonNegativeIntIsFloat(i: int)
    requires i >= 0
    ensures ParseFloat(IntToString(i)) == Some(i as real)
  {
    NonNegativeIntText(i);
    NatToStringRoundTrip(i);
    ParseFloatOfDigits(NatToString(i));
  }

  /** A plain run of digits is a float literal with no fraction. */
  lemma UnsignedDecimalOfDigits(d: string)
    requires d != [] && AllDigits(d)
    ensures ParseUnsignedDecimal(d) == Some(DigitsValue(d) as real)
  {
    NoDotInDigits(d);
    assert d[..|d|] == d;
  }

  lemma NoDotInDigits(s: string)
    requires AllDigits(s)
    ensures IndexOfChar(s, '.') == |s|
  {
  }

  /** A literal whose first dot is at k reads as the digits before it plus
      the fraction after it. */
  lemma UnsignedDecimalAt(t: string, k: nat)
    requires k < |t| && t[k] == '.' && '.' !in t[..k] && (k > 0 || k + 1 < |t|)
    requires AllDigits(t[..k]) && AllDigits(t[k + 1..])
    ensures ParseUnsignedDecimal(t) == Some(DigitsValue(t[..k]) as real + FractionValue(t[k + 1..]))
  {
  }

  /** `<digits>.<digits>` with a digit on at least one side reads as the
      whole part plus the fraction. */
  lemma DecimalLiteral(d: string, f: string)
    requires AllDigits(d) && AllDigits(f) && (d != [] || f != [])
    ensures ParseUnsignedDecimal(d + "." + f) == Some(DigitsValue(d) as real + FractionValue(f))
  {
    var t := d + "." + f;
    DecimalParts(t, d, f);
    DecimalSplit(t, d, f);
  }

  lemma DecimalSplit(t: string, d: string, f: string)
    requires |d| < |t| && t[..|d|] == d && t[|d|] == '.' && t[|d| + 1..] == f && '.' !in d
    requires AllDigits(d) && AllDigits(f) && (d != [] || f != [])
    ensures ParseUnsignedDecimal(t) == Some(DigitsValue(d) as real + FractionValue(f))
  {
    UnsignedDecimalAt(t, |d|);
  }

  lemma DecimalParts(t: string, d: string, f: string)
    requires AllDigits(d) && t == d + "." + f
    ensures |d| < |t| && t[..|d|] == d && t[|d|] == '.' && t[|d| + 1..] == f && '.' !in d
  {
    assert forall i :: 0 <= i < |d| ==> IsDigit(d[i]);
  }

  /** A literal starting and ending in a digit is read by `float` as it
      stands. */
  lemma UnsignedFloat(t: string, x: real)
    requires t != [] && IsDigit(t[0]) && IsDigit(t[|t| - 1])
    requires ParseUnsignedDecimal(t) == Some(x)
    ensures ParseFloat(t) == Some(x)
  {
    assert t[0] !in Whitespace && t[|t| - 1] !in Whitespace;
    assert Strip(t) == t;
  }

  /** A minus sign before a literal ending in a digit negates it. */
  lemma SignedFloat(t: string, u: string, x: real)
    requires |t| > 1 && t[0] == '-' && t[1..] == u && IsDigit(t[|t| - 1])
    requires ParseUnsignedDecimal(u) == Some(x)
    ensures ParseFloat(t) == Some(-x)
  {
    assert t[0] !in Whitespace && t[|t| - 1] !in Whitespace;
    assert Strip(t) == t;
    NegatedFloat(t, x);
  }

  lemma DecimalEnds(t: string, d: string, f: string)
    requires d != [] && f != [] && t == d + "." + f
    ensures t[0] == d[0] && t[|t| - 1] == f[|f| - 1]
  {
  }

  /** `float(str(w) + "." + f) == w + 0.f`: a non-negative decimal text reads
      back as its whole part plus its fraction. */
  lemma DecimalIsFloat(w: nat, f: string)
    requires f != [] && AllDigits(f)
    ensures ParseFloat(IntToString(w) + "." + f).Some?
    ensures ParseFloat(IntToString(w) + "." + f).value == w as real + FractionValue(f)
  {
    var d := IntToString(w);
    NonNegativeIntText(w);
    NatToStringRoundTrip(w);
    assert DigitsValue(d) == w;
    DigitsDecimalIsFloat(d, f);
  }

  /** `float(d + "." + f)` for two non-empty runs of digits. */
  lemma {:induction false} DigitsDecimalIsFloat(d: string, f: string)
    requires d != [] && AllDigits(d) && f != [] && AllDigits(f)
    ensures ParseFloat(d + "." + f).Some?
    ensures ParseFloat(d + "." + f).value == DigitsValue(d) as real + FractionValue(f)
  {
    var t := d + "." + f;
    DecimalLiteral(d, f);
    DecimalEnds(t, d, f);
    assert IsDigit(d[0]) && IsDigit(f[|f| - 1]);
    UnsignedFloat(t, DigitsValue(d) as real + FractionValue(f));
  }

  /** `float("-" + d + "." + f) == -(d + 0.f)`, `-0.5` included. */
  lemma {:induction false} NegativeDecimalIsFloat(d: string, f: string)
    requires AllDigits(d) && f != [] && AllDigits(f)
    ensures ParseFloat("-" + d + "." + f).Some?
    ensures ParseFloat("-" + d + "." + f).value == -(DigitsValue(d) as real + FractionValue(f))
  {
    var u := d + "." + f;
    var t := "-" + d + "." + f;
    DecimalLiteral(d, f);
    NegativeDecimalParts(t, d, f);
    assert IsDigit(f[|f| - 1]);
    SignedFloat(t, u, DigitsValue(d) as real + FractionValue(f));
  }

  lemma NegativeDecimalParts(t: string, d: string, f: string)
    requires f != [] && t == "-" + d + "." + f
    ensures |t| > 1 && t[0] == '-' && t[1..] == d + "." + f && t[|t| - 1] == f[|f| - 1]
  {
  }
}
