/** The optional-value wrapper the other modules share. */
module Wrappers {

  datatype Option<+T> = None | Some(value: T)
}

/**
 * The handful of Python `str` operations the scripts rely on, on strings
 * as sequences of characters: `isspace`, `strip`, `lstrip(c)`, `lower`,
 * `zfill`, the `int()` and `float()` constructors applied to text, and the
 * decimal rendering `str(n)` of an integer.
 *
 * Only the ASCII part of Python's Unicode tables is modelled (whitespace,
 * digits and upper/lower case).
 */
module PyText {
  import opened Wrappers

  /** The ASCII characters for which `str.isspace()` holds: space, \t \n \v \f \r and \x1c-\x1f. */
  predicate IsSpace(c: char) {
    c == ' ' || 9 <= c as int <= 13 || 28 <= c as int <= 31
  }

  predicate Blank(s: string) {
    forall i :: 0 <= i < |s| ==> IsSpace(s[i])
  }

  /** `s.lstrip()`: drops the leading whitespace. */
  function StripLeft(s: string): (r: string)
    ensures |r| <= |s| && r == s[|s| - |r|..]
    ensures forall i :: 0 <= i < |s| - |r| ==> IsSpace(s[i])
    ensures r == [] || !IsSpace(r[0])
  {
    if s != [] && IsSpace(s[0]) then StripLeft(s[1..]) else s
  }

  /** `s.rstrip()`: drops the trailing whitespace. */
  function StripRight(s: string): (r: string)
    ensures |r| <= |s| && r == s[..|r|]
    ensures forall i :: |r| <= i < |s| ==> IsSpace(s[i])
    ensures r == [] || !IsSpace(r[|r| - 1])
  {
    if s != [] && IsSpace(s[|s| - 1]) then StripRight(s[..|s| - 1]) else s
  }

  /** `s.strip()`. The result is empty exactly when `s` is blank. */
  function Strip(s: string): (r: string)
    ensures |r| <= |s|
    ensures r == [] <==> Blank(s)
    ensures r != [] ==> !IsSpace(r[0]) && !IsSpace(r[|r| - 1])
  {
    var l := StripLeft(s);
    var r := StripRight(l);
    assert r != [] ==> !IsSpace(r[0]) by {
      if r != [] { assert r[0] == l[0]; }
    }
    r
  }

  /** `r` is the slice of `s` starting at `a`, with only whitespace before and after it. */
  predicate Framed(s: string, a: nat, r: string) {
    && a + |r| <= |s|
    && r == s[a..a + |r|]
    && (forall i :: 0 <= i < a ==> IsSpace(s[i]))
    && (forall i :: a + |r| <= i < |s| ==> IsSpace(s[i]))
  }

  /**
   * `s.strip()` is the part of `s` between its leading and its trailing
   * whitespace: a slice of `s` with only whitespace on either side.
   */
  lemma StripSlice(s: string)
    ensures Framed(s, |s| - |StripLeft(s)|, Strip(s))
  {
    StripBothEnds(s);
    SliceOfSuffix(s, StripLeft(s), StripRight(StripLeft(s)));
  }

  /** `strip` is `lstrip` followed by `rstrip`. */
  lemma StripBothEnds(s: string)
    ensures Strip(s) == StripRight(StripLeft(s))
  {
  }

  /**
   * A prefix `r` of a suffix `l` of `s`, with only whitespace before `l`
   * and after `r` in `l`, is a slice of `s` framed by whitespace.
   */
  lemma SliceOfSuffix(s: string, l: string, r: string)
    requires |l| <= |s| && l == s[|s| - |l|..]
    requires forall i :: 0 <= i < |s| - |l| ==> IsSpace(s[i])
    requires |r| <= |l| && r == l[..|r|]
    requires forall i :: |r| <= i < |l| ==> IsSpace(l[i])
    ensures Framed(s, |s| - |l|, r)
  {
    var a := |s| - |l|;
    forall i | a + |r| <= i < |s| ensures IsSpace(s[i]) {
      assert s[i] == l[i - a];
    }
  }

  /** A string with no whitespace at either end is its own strip. */
  lemma {:induction false} StripTrimmed(s: string)
    requires s != [] ==> !IsSpace(s[0]) && !IsSpace(s[|s| - 1])
    ensures Strip(s) == s
  {
  }

  /** `s.lstrip(c)`: drops every leading occurrence of `c`. */
  function LStripChar(s: string, c: char): (r: string)
    ensures |r| <= |s|
    ensures r == [] || r[0] != c
  {
    if s != [] && s[0] == c then LStripChar(s[1..], c) else s
  }

  /** One extra leading `c` makes no difference to `lstrip(c)`. */
  lemma LStripCharCons(c: char, q: string)
    ensures LStripChar([c] + q, c) == LStripChar(q, c)
  {
    assert ([c] + q)[1..] == q;
  }

  /** One more copy of `c` in front. */
  lemma RepeatCons(c: char, n: nat, s: string)
    ensures Repeat(c, n + 1) + s == [c] + (Repeat(c, n) + s)
  {
    assert Repeat(c, n + 1) == [c] + Repeat(c, n);
  }

  /** Any number of leading copies of `c` make no difference to `lstrip(c)`. */
  lemma {:induction false} LStripCharRepeat(c: char, k: nat, s: string)
    ensures LStripChar(Repeat(c, k) + s, c) == LStripChar(s, c)
  {
    if k > 0 {
      RepeatCons(c, k - 1, s);
      LStripCharCons(c, Repeat(c, k - 1) + s);
      LStripCharRepeat(c, k - 1, s);
    } else {
      assert Repeat(c, k) + s == s;
    }
  }

  /** A string is the copies of `c` that `lstrip(c)` drops followed by what it keeps. */
  lemma {:induction false} LStripCharSplit(s: string, c: char)
    ensures s == Repeat(c, |s| - |LStripChar(s, c)|) + LStripChar(s, c)
  {
    var r := LStripChar(s, c);
    var k := |s| - |r|;
    if s != [] && s[0] == c {
      var t := s[1..];
      assert LStripChar(t, c) == r;
      LStripCharSplit(t, c);
      assert t == Repeat(c, k - 1) + r;
      RepeatCons(c, k - 1, r);
      assert Repeat(c, k) + r == [c] + t;
      assert s == [c] + t;
    } else {
      assert r == s && k == 0;
      assert Repeat(c, 0) + r == r;
    }
  }

  /** `lstrip(c)` is idempotent. */
  lemma LStripCharTwice(s: string, c: char)
    ensures LStripChar(LStripChar(s, c), c) == LStripChar(s, c)
  {
  }

  function LowerChar(c: char): char {
    if 'A' <= c <= 'Z' then (c as int + 32) as char else c
  }

  /** `s.lower()` on ASCII letters. */
  function Lower(s: string): (r: string)
    ensures |r| == |s|
    ensures forall i :: 0 <= i < |s| ==> r[i] == LowerChar(s[i])
  {
    seq(|s|, i requires 0 <= i < |s| => LowerChar(s[i]))
  }

  /** Lower-casing neither makes nor removes whitespace at the ends. */
  lemma LowerTrimmed(t: string)
    requires t != [] ==> !IsSpace(t[0]) && !IsSpace(t[|t| - 1])
    ensures Lower(t) != [] ==> !IsSpace(Lower(t)[0]) && !IsSpace(Lower(t)[|Lower(t)| - 1])
  {
  }

  /** Lower-casing twice is lower-casing once. */
  lemma LowerTwice(s: string)
    ensures Lower(Lower(s)) == Lower(s)
  {
  }

  /** `s.strip().lower()` is unchanged by another `.strip().lower()`. */
  lemma LowerStripIdempotent(s: string)
    ensures Lower(Strip(Lower(Strip(s)))) == Lower(Strip(s))
  {
    LowerTrimmed(Strip(s));
    StripTrimmed(Lower(Strip(s)));
    LowerTwice(Strip(s));
  }

  /** `c * n`: the string of `n` copies of `c`. */
  function Repeat(c: char, n: nat): (z: string)
    ensures |z| == n
  {
    if n == 0 then [] else [c] + Repeat(c, n - 1)
  }

  function Zeros(n: nat): (z: string)
    ensures |z| == n
  {
    Repeat('0', n)
  }

  predicate IsSign(c: char) {
    c == '+' || c == '-'
  }

  /**
   * `s.zfill(width)`: pads with '0' on the left up to `width` characters,
   * keeping a leading sign in front of the padding.
   */
  function ZFill(s: string, width: nat): (r: string)
    ensures |r| == if |s| >= width then |s| else width
    ensures |s| >= width ==> r == s
  {
    if |s| >= width then s
    else if s != [] && IsSign(s[0]) then [s[0]] + Zeros(width - |s|) + s[1..]
    else Zeros(width - |s|) + s
  }

  /** For a string that does not start with a sign, zfill only adds leading zeros. */
  lemma ZFillUnsigned(s: string, width: nat)
    requires s == [] || !IsSign(s[0])
    ensures ZFill(s, width) == Zeros(|ZFill(s, width)| - |s|) + s
  {
    if |s| >= width {
      assert Zeros(0) + s == s;
    }
  }

  predicate IsDigit(c: char) {
    '0' <= c <= '9'
  }

  predicate AllDigits(s: string) {
    forall i :: 0 <= i < |s| ==> IsDigit(s[i])
  }

  function DigitValue(c: char): nat
    requires IsDigit(c)
  {
    c as int - '0' as int
  }

  /** The number a string of decimal digits denotes. */
  function DigitsValue(s: string): nat
    requires AllDigits(s)
  {
    if s == [] then 0 else DigitsValue(s[..|s| - 1]) * 10 + DigitValue(s[|s| - 1])
  }

  function DigitChar(d: nat): (c: char)
    requires d < 10
    ensures IsDigit(c) && DigitValue(c) == d
  {
    ('0' as int + d) as char
  }

  /** `str(n)` for a natural number: its decimal digits, without leading zeros. */
  function DecimalDigits(n: nat): (s: string)
    ensures s != [] && AllDigits(s)
    ensures DigitsValue(s) == n
    ensures s[0] != '0' || n == 0
    decreases n
  {
    if n < 10 then [DigitChar(n)]
    else
      var s := DecimalDigits(n / 10) + [DigitChar(n % 10)];
      assert s[..|s| - 1] == DecimalDigits(n / 10);
      s
  }

  /** `str(n)` for any integer. */
  function IntToText(n: int): (s: string)
  {
    if n < 0 then "-" + DecimalDigits(-n) else DecimalDigits(n)
  }

  /**
   * The digit part of an integer literal as Python's `int()` reads it:
   * digits, optionally separated by single underscores.
   */
  predicate DigitGroups(s: string) {
    && s != []
    && IsDigit(s[0]) && IsDigit(s[|s| - 1])
    && (forall i :: 0 <= i < |s| ==> IsDigit(s[i]) || s[i] == '_')
    && (forall i :: 0 <= i < |s| - 1 ==> !(s[i] == '_' && s[i + 1] == '_'))
  }

  function DropUnderscores(s: string): (r: string)
    requires forall i :: 0 <= i < |s| ==> IsDigit(s[i]) || s[i] == '_'
    ensures AllDigits(r) && |r| <= |s|
  {
    if s == [] then []
    else if s[0] == '_' then DropUnderscores(s[1..])
    else [s[0]] + DropUnderscores(s[1..])
  }

  /** The value of an unsigned integer literal body, if it is well-formed. */
  function ParseUnsigned(s: string): (r: Option<nat>)
    ensures r.Some? <==> DigitGroups(s)
  {
    if DigitGroups(s) then Some(DigitsValue(DropUnderscores(s))) else None
  }

  /**
   * `int(s)` for a string: surrounding whitespace is ignored, an optional
   * sign is followed by digits (single underscores allowed between them).
   * `None` stands for the `ValueError` Python raises.
   */
  function ParseInt(s: string): (r: Option<int>)
    ensures Blank(s) ==> r == None
  {
    var t := Strip(s);
    if t == [] then None
    else
      var negative := t[0] == '-';
      var body := if IsSign(t[0]) then t[1..] else t;
      match ParseUnsigned(body)
      case None => None
      case Some(n) =>
        var v: int := if negative then -(n as int) else n;
        Some(v)
  }

  lemma {:induction false} DropUnderscoresOfDigits(s: string)
    requires AllDigits(s)
    ensures DropUnderscores(s) == s
  {
    if s != [] {
      DropUnderscoresOfDigits(s[1..]);
    }
  }

  /** Reading back the decimal rendering of a natural number gives the number. */
  lemma ParseDecimalDigits(n: nat)
    ensures ParseUnsigned(DecimalDigits(n)) == Some(n)
  {
    var d := DecimalDigits(n);
    assert DigitGroups(d);
    DropUnderscoresOfDigits(d);
  }

  /** `int(str(n)) == n`: parsing is the inverse of rendering. */
  lemma ParseIntRoundTrip(n: int)
    ensures ParseInt(IntToText(n)) == Some(n)
  {
    var s := IntToText(n);
    var d := DecimalDigits(if n < 0 then -n else n);
    assert s == if n < 0 then "-" + d else d;
    assert !IsSpace(s[0]) && !IsSpace(s[|s| - 1]) by {
      assert IsDigit(d[0]) && IsDigit(d[|d| - 1]);
      assert s[|s| - 1] == d[|d| - 1];
    }
    StripTrimmed(s);
    ParseDecimalDigits(if n < 0 then -n else n);
    if n < 0 {
      assert s[1..] == d;
    } else {
      assert !IsSign(s[0]);
    }
  }

  function Pow10(k: nat): (p: nat)
    ensures p >= 1
  {
    if k == 0 then 1 else 10 * Pow10(k - 1)
  }

  /** The position of the first `c` in `s`, if any. */
  function IndexOf(s: string, c: char): (r: Option<nat>)
    ensures r.Some? ==> r.value < |s| && s[r.value] == c && forall j :: 0 <= j < r.value ==> s[j] != c
    ensures r.None? ==> forall j :: 0 <= j < |s| ==> s[j] != c
  {
    if s == [] then None
    else if s[0] == c then Some(0)
    else match IndexOf(s[1..], c)
      case None => None
      case Some(i) => Some(i + 1)
  }

  /**
   * The unsigned body of a decimal literal as `float()` reads it: digits,
   * optionally followed by '.' and more digits, with at least one digit in all.
   */
  function ParseUnsignedDecimal(s: string): (r: Option<real>)
    ensures r.Some? ==> r.value >= 0.0
  {
    match IndexOf(s, '.')
    case None =>
      if s != [] && AllDigits(s) then Some(DigitsValue(s) as real) else None
    case Some(i) =>
      if |s| > 1 && AllDigits(s[..i]) && AllDigits(s[i + 1..]) then
        Some(DecimalValue(DigitsValue(s[..i]), DigitsValue(s[i + 1..]), |s| - i - 1))
      else None
  }

  /** The number written `whole.frac` when `frac` has `places` digits. */
  function DecimalValue(whole: nat, frac: nat, places: nat): (x: real)
    ensures x >= whole as real
  {
    whole as real + frac as real / Pow10(places) as real
  }

  /** A run of digits reads as the integer it denotes. */
  lemma ParseWholeDigits(whole: string)
    requires whole != [] && AllDigits(whole)
    ensures ParseUnsignedDecimal(whole) == Some(DigitsValue(whole) as real)
  {
    assert IndexOf(whole, '.').None? by {
      if IndexOf(whole, '.').Some? {
        assert IsDigit(whole[IndexOf(whole, '.').value]);
      }
    }
  }

  /**
   * `whole.frac` reads as the whole part plus the fraction digits scaled
   * by their number of places.
   */
  lemma ParsePointDigits(whole: string, frac: string)
    requires AllDigits(whole) && AllDigits(frac) && |whole| + |frac| >= 1
    ensures ParseUnsignedDecimal(whole + "." + frac) ==
      Some(DecimalValue(DigitsValue(whole), DigitsValue(frac), |frac|))
  {
    var s := whole + "." + frac;
    var k := |whole|;
    assert s[k] == '.';
    assert IndexOf(s, '.') == Some(k) by {
      IndexOfFirst(s, '.', k);
    }
    assert s[..k] == whole && s[k + 1..] == frac;
    assert |s| > 1 && |s| - k - 1 == |frac|;
  }

  /** `c` first occurs at `k` when it is there and nowhere before. */
  lemma {:induction false} IndexOfFirst(s: string, c: char, k: nat)
    requires k < |s| && s[k] == c && forall j :: 0 <= j < k ==> s[j] != c
    ensures IndexOf(s, c) == Some(k)
  {
    if k > 0 {
      IndexOfFirst(s[1..], c, k - 1);
    }
  }

  /** `float(s)` for a string, restricted to plain decimal notation. */
  function ParseFloat(s: string): (r: Option<real>)
    ensures Blank(s) ==> r == None
  {
    var t := Strip(s);
    if t == [] then None
    else if IsSign(t[0]) then
      match ParseUnsignedDecimal(t[1..])
      case None => None
      case Some(x) => Some(if t[0] == '-' then -x else x)
    else ParseUnsignedDecimal(t)
  }

  /** `int(x)` for a float: truncation toward zero. */
  function Trunc(x: real): (n: int)
    ensures x >= 0.0 ==> n as real <= x < n as real + 1.0
    ensures x < 0.0 ==> n as real - 1.0 < x <= n as real
  {
    if x >= 0.0 then x.Floor else -((-x).Floor)
  }
}
