/**
 * The JavaScript string operations the product core relies on:
 * `String.prototype.trim` (the schema's `trim: true` and the form guard),
 * `toLowerCase` (search), `includes` (search), `Number.prototype.toString`
 * for integer IDs and `parseInt` for the form's ID field.
 */
module Text {
  import opened Wrappers

  /**
   * The characters `trim` removes: ECMAScript WhiteSpace and LineTerminator,
   * by code point (tab, line feed, vertical tab, form feed, carriage return,
   * space, no-break space, the Unicode space separators, the line and
   * paragraph separators, and the byte order mark).
   */
  predicate IsWhitespace(c: char) {
    var n := c as int;
    || 0x09 <= n <= 0x0D || n == 0x20 || n == 0xA0 || n == 0x1680
    || 0x2000 <= n <= 0x200A || n == 0x2028 || n == 0x2029 || n == 0x202F
    || n == 0x205F || n == 0x3000 || n == 0xFEFF
  }

  /** Every character of `s` from index `lo` up to (not including) `hi` is whitespace. */
  predicate WhitespaceBetween(s: string, lo: int, hi: int) {
    0 <= lo <= hi <= |s| && forall k :: lo <= k < hi ==> IsWhitespace(s[k])
  }

  predicate AllWhitespace(s: string) {
    WhitespaceBetween(s, 0, |s|)
  }

  /** `trimStart`: drops the leading whitespace and keeps the rest as a suffix of `s`. */
  function TrimStart(s: string): (r: string)
    ensures |r| <= |s| && r == s[|s| - |r|..]
    ensures r == [] || !IsWhitespace(r[0])
    ensures WhitespaceBetween(s, 0, |s| - |r|)
  {
    if s != [] && IsWhitespace(s[0]) then
      var r := TrimStart(s[1..]);
      assert s[1..][|s| - 1 - |r|..] == s[|s| - |r|..];
      assert forall k :: 1 <= k < |s| - |r| ==> s[k] == s[1..][k - 1];
      r
    else s
  }

  /** `trimEnd`: drops the trailing whitespace and keeps the rest as a prefix of `s`. */
  function TrimEnd(s: string): (r: string)
    ensures |r| <= |s| && r == s[..|r|]
    ensures r == [] || !IsWhitespace(r[|r| - 1])
    ensures WhitespaceBetween(s, |r|, |s|)
  {
    if s != [] && IsWhitespace(s[|s| - 1]) then TrimEnd(s[..|s| - 1]) else s
  }

  /** `r` stands at position `i` of `s` with only whitespace before and after it. */
  predicate SurroundedByWhitespace(s: string, r: string, i: int) {
    && 0 <= i <= |s| - |r| && r == s[i..i + |r|]
    && WhitespaceBetween(s, 0, i) && WhitespaceBetween(s, i + |r|, |s|)
  }

  /**
   * `trim`: whitespace removed at both ends. The result has no whitespace at
   * either end, and it is empty exactly when `s` is all whitespace.
   */
  function Trim(s: string): (r: string)
    ensures |r| <= |s|
    ensures IsTrimmed(r)
    ensures r == [] <==> AllWhitespace(s)
  {
    TrimEmptyIffAllWhitespace(s);
    TrimEnd(TrimStart(s))
  }

  /** What `trim` keeps is an infix of `s` with only whitespace before and after it. */
  lemma TrimIsInfix(s: string)
    ensures exists i :: SurroundedByWhitespace(s, Trim(s), i)
  {
    TrimSurrounded(s);
    assert SurroundedByWhitespace(s, Trim(s), |s| - |TrimStart(s)|);
  }

  lemma TrimSurrounded(s: string)
    ensures SurroundedByWhitespace(s, TrimEnd(TrimStart(s)), |s| - |TrimStart(s)|)
  {
    var t := TrimStart(s);
    Surrounded(s, t, TrimEnd(t));
  }

  /** Whitespace cut from the front of `s` and then from the back of the rest leaves an infix surrounded by whitespace. */
  lemma Surrounded(s: string, t: string, r: string)
    requires |t| <= |s| && t == s[|s| - |t|..] && WhitespaceBetween(s, 0, |s| - |t|)
    requires |r| <= |t| && r == t[..|r|] && WhitespaceBetween(t, |r|, |t|)
    ensures SurroundedByWhitespace(s, r, |s| - |t|)
  {
    var i := |s| - |t|;
    PrefixOfSuffix(s, i, t, r);
    WhitespaceInSuffix(s, i, t, |r|);
  }

  /** A prefix of the suffix of `s` from `i` is the infix of `s` from `i`. */
  lemma PrefixOfSuffix(s: string, i: int, t: string, r: string)
    requires 0 <= i <= |s| && t == s[i..] && |r| <= |t| && r == t[..|r|]
    ensures r == s[i..i + |r|]
  {
  }

  /** Whitespace at the end of the suffix of `s` from `i` is whitespace at the end of `s`. */
  lemma WhitespaceInSuffix(s: string, i: int, t: string, lo: int)
    requires 0 <= i <= |s| && t == s[i..] && WhitespaceBetween(t, lo, |t|)
    ensures WhitespaceBetween(s, i + lo, |s|)
  {
    forall k | i + lo <= k < |s| ensures IsWhitespace(s[k]) {
      assert s[k] == t[k - i];
    }
  }

  lemma TrimEmptyIffAllWhitespace(s: string)
    ensures TrimEnd(TrimStart(s)) == [] <==> AllWhitespace(s)
  {
    var t := TrimStart(s);
    var r := TrimEnd(t);
    var i := |s| - |t|;
    assert t == s[i..];
    if r == [] {
      forall k | i <= k < |s| ensures IsWhitespace(s[k]) {
        assert s[k] == t[k - i];
      }
    } else {
      assert t[0] == s[i];
    }
  }

  /** Neither end of `s` is whitespace. */
  predicate IsTrimmed(s: string) {
    s == [] || (!IsWhitespace(s[0]) && !IsWhitespace(s[|s| - 1]))
  }

  /** The strings `trim` leaves alone are exactly those with no whitespace at either end. */
  lemma {:induction false} TrimFixpoints(s: string)
    ensures Trim(s) == s <==> IsTrimmed(s)
  {
    if IsTrimmed(s) && s != [] {
      assert TrimStart(s) == s;
      assert TrimEnd(s) == s;
    }
  }

  /** Trimming twice is trimming once. */
  lemma TrimIdempotent(s: string)
    ensures Trim(Trim(s)) == Trim(s)
  {
    TrimFixpoints(Trim(s));
  }

  /** ASCII approximation of `toLowerCase`. */
  function LowerChar(c: char): char {
    if 'A' <= c <= 'Z' then (c as int + 32) as char else c
  }

  function Lower(s: string): (r: string)
    ensures |r| == |s| && forall i :: 0 <= i < |s| ==> r[i] == LowerChar(s[i])
  {
    if s == [] then [] else [LowerChar(s[0])] + Lower(s[1..])
  }

  predicate StartsWith(s: string, prefix: string) {
    |prefix| <= |s| && s[..|prefix|] == prefix
  }

  /** `includes`: scans `s` for an occurrence of `sub` at every position in turn. */
  predicate Contains(s: string, sub: string)
    decreases |s|
  {
    StartsWith(s, sub) || (s != [] && Contains(s[1..], sub))
  }

  /** `sub` occurs in `s` starting at position `i`. */
  predicate OccursAt(s: string, sub: string, i: int) {
    0 <= i <= |s| - |sub| && s[i..i + |sub|] == sub
  }

  /** The scan finds `sub` exactly when `sub` occurs at some position of `s`. */
  lemma {:induction false} ContainsIffOccurs(s: string, sub: string)
    ensures Contains(s, sub) <==> exists i :: OccursAt(s, sub, i)
    decreases |s|
  {
    if s == [] {
      if sub == [] {
        assert OccursAt(s, sub, 0);
      }
    } else {
      ContainsIffOccurs(s[1..], sub);
      if Contains(s, sub) {
        if StartsWith(s, sub) {
          assert OccursAt(s, sub, 0);
        } else {
          var i :| OccursAt(s[1..], sub, i);
          assert s[1..][i..i + |sub|] == s[i + 1..i + 1 + |sub|];
          assert OccursAt(s, sub, i + 1);
        }
      }
      if exists i :: OccursAt(s, sub, i) {
        var i :| OccursAt(s, sub, i);
        if i > 0 {
          assert s[1..][i - 1..i - 1 + |sub|] == s[i..i + |sub|];
          assert OccursAt(s[1..], sub, i - 1);
        } else {
          assert StartsWith(s, sub);
        }
      }
    }
  }

  /** Every string contains the empty string, as `includes('')` is always true. */
  lemma ContainsEmpty(s: string)
    ensures Contains(s, "")
  {
    assert StartsWith(s, "");
  }

  predicate IsDigit(c: char) {
    '0' <= c <= '9'
  }

  predicate AllDigits(s: string) {
    forall i :: 0 <= i < |s| ==> IsDigit(s[i])
  }

  function DigitChar(d: nat): (c: char)
    requires d < 10
    ensures IsDigit(c) && c as int - '0' as int == d
  {
    ('0' as int + d) as char
  }

  /** Base-10 digits of a natural number, most significant first, no leading zero. */
  function Digits(n: nat): (r: string)
    ensures |r| >= 1 && AllDigits(r)
    ensures |r| > 1 ==> r[0] != '0'
  {
    if n < 10 then [DigitChar(n)] else Digits(n / 10) + [DigitChar(n % 10)]
  }

  /** `n.toString()` for an integer `n`: an optional minus sign followed by the digits. */
  function DecimalString(n: int): (r: string)
    ensures r != [] && (r[0] == '-' || IsDigit(r[0]))
    ensures (r[0] == '-') <==> n < 0
    ensures forall i :: 0 <= i < |r| ==> IsDigit(r[i]) || (i == 0 && r[i] == '-')
  {
    if n < 0 then ['-'] + Digits(-n) else Digits(n)
  }

  /** The value of a string of decimal digits, most significant first. */
  function DigitsValue(d: string): nat
    requires AllDigits(d)
  {
    if d == [] then 0 else DigitsValue(d[..|d| - 1]) * 10 + (d[|d| - 1] as int - '0' as int)
  }

  /** The longest prefix of `s` made of decimal digits. */
  function DigitPrefix(s: string): (r: string)
    ensures |r| <= |s| && r == s[..|r|] && AllDigits(r)
    ensures |r| == |s| || !IsDigit(s[|r|])
  {
    if s != [] && IsDigit(s[0]) then [s[0]] + DigitPrefix(s[1..]) else []
  }

  /**
   * `parseInt(s)` with no radix, for decimal input: skip leading whitespace,
   * then read a signed run of digits; no digits is NaN (None).
   */
  function ParseInt(s: string): Option<int> {
    ParseSigned(TrimStart(s))
  }

  /** An optional sign, then the longest run of digits. */
  function ParseSigned(t: string): Option<int> {
    if t != [] && t[0] == '-' then
      match ParseDigits(t[1..])
      case None => None
      case Some(v) => Some(-v)
    else if t != [] && t[0] == '+' then ParseDigits(t[1..])
    else ParseDigits(t)
  }

  /** The value of the longest run of digits at the start of `b`, if there is one. */
  function ParseDigits(b: string): Option<int> {
    var d := DigitPrefix(b);
    if d == [] then None else Some(DigitsValue(d) as int)
  }

  /** `parseInt(s) || 0`: NaN (and zero) become 0. */
  function ParseIntOrZero(s: string): (n: int)
    ensures ParseInt(s).None? ==> n == 0
    ensures ParseInt(s).Some? ==> n == ParseInt(s).value
  {
    match ParseInt(s)
    case Some(v) => v
    case None => 0
  }

  lemma {:induction false} DigitsValueOfDigits(n: nat)
    ensures DigitsValue(Digits(n)) == n
  {
    if n >= 10 {
      DigitsValueOfDigits(n / 10);
      var d := Digits(n);
      assert d[..|d| - 1] == Digits(n / 10);
    }
  }

  lemma {:induction false} DigitPrefixOfDigits(d: string)
    requires AllDigits(d)
    ensures DigitPrefix(d) == d
  {
    if d != [] {
      DigitPrefixOfDigits(d[1..]);
    }
  }

  lemma DigitIsNotWhitespace(c: char)
    requires IsDigit(c) || c == '-'
    ensures !IsWhitespace(c)
  {
  }

  /** Leading whitespace is all `parseInt` skips: text starting with anything else is read as is. */
  lemma ParseIntAtNonWhitespace(t: string)
    requires t != [] && !IsWhitespace(t[0])
    ensures ParseInt(t) == ParseSigned(t)
  {
    assert TrimStart(t) == t;
  }

  lemma ParseDigitsOfDigits(d: string)
    requires d != [] && AllDigits(d)
    ensures ParseDigits(d) == Some(DigitsValue(d) as int)
  {
    DigitPrefixOfDigits(d);
  }

  lemma ParseIntOfDigits(d: string)
    requires d != [] && AllDigits(d)
    ensures ParseInt(d) == Some(DigitsValue(d) as int)
  {
    DigitIsNotWhitespace(d[0]);
    ParseIntAtNonWhitespace(d);
    ParseDigitsOfDigits(d);
  }

  lemma ParseIntOfMinus(m: string)
    requires |m| >= 2 && m[0] == '-' && AllDigits(m[1..])
    ensures ParseInt(m) == Some(-(DigitsValue(m[1..]) as int))
  {
    DigitIsNotWhitespace(m[0]);
    ParseIntAtNonWhitespace(m);
    ParseDigitsOfDigits(m[1..]);
  }

  /** Reading back the decimal form of an integer gives the integer: `parseInt(String(n)) === n`. */
  lemma ParseIntOfDecimalString(n: int)
    ensures ParseInt(DecimalString(n)) == Some(n)
  {
    var m: nat := if n < 0 then -n else n;
    DigitsValueOfDigits(m);
    var s := DecimalString(n);
    if n < 0 {
      assert s[1..] == Digits(m);
      ParseIntOfMinus(s);
    } else {
      ParseIntOfDigits(s);
    }
  }

  /** Leading whitespace in front of text that does not start with whitespace is all `trimStart` removes. */
  lemma {:induction false} TrimStartOfWhitespace(w: string, t: string)
    requires AllWhitespace(w) && (t == [] || !IsWhitespace(t[0]))
    ensures TrimStart(w + t) == t
  {
    if w != [] {
      assert (w + t)[0] == w[0];
      assert (w + t)[1..] == w[1..] + t;
      assert AllWhitespace(w[1..]) by {
        forall k | 0 <= k < |w[1..]| ensures IsWhitespace(w[1..][k]) {
          assert w[1..][k] == w[k + 1];
        }
      }
      TrimStartOfWhitespace(w[1..], t);
    } else {
      assert w + t == t;
    }
  }

  /** The run of digits at the start of `d + rest` is `d` when `rest` does not start with a digit. */
  lemma {:induction false} DigitPrefixStops(d: string, rest: string)
    requires AllDigits(d) && (rest == [] || !IsDigit(rest[0]))
    ensures DigitPrefix(d + rest) == d
  {
    if d != [] {
      assert (d + rest)[0] == d[0];
      assert (d + rest)[1..] == d[1..] + rest;
      DigitPrefixStops(d[1..], rest);
    } else {
      assert d + rest == rest;
    }
  }

  /** The sign and digits at the start of `t` are read, and whatever follows a non-digit is ignored. */
  lemma ParseSignedOfDecimal(n: int, rest: string, t: string)
    requires rest == [] || !IsDigit(rest[0])
    requires t == DecimalString(n) + rest
    ensures ParseSigned(t) == Some(n)
  {
    var m: nat := if n < 0 then -n else n;
    DigitsValueOfDigits(m);
    var d := Digits(m);
    DigitPrefixStops(d, rest);
    if n < 0 {
      assert t[1..] == d + rest;
    } else {
      assert t == d + rest;
    }
  }

  /**
   * `parseInt` skips leading whitespace, reads an integer's decimal form and
   * stops at the first character that is not a digit: `parseInt(" 12abc")` is 12.
   */
  lemma ParseIntReadsLeadingNumber(w: string, n: int, rest: string)
    requires AllWhitespace(w) && (rest == [] || !IsDigit(rest[0]))
    ensures ParseInt(w + DecimalString(n) + rest) == Some(n)
    ensures ParseIntOrZero(w + DecimalString(n) + rest) == n
  {
    var t := DecimalString(n) + rest;
    DigitIsNotWhitespace(t[0]);
    TrimStartOfWhitespace(w, t);
    assert w + DecimalString(n) + rest == w + t;
    ParseSignedOfDecimal(n, rest, t);
  }

  /**
   * Text whose first character that is not whitespace is neither a sign nor a
   * digit is NaN for `parseInt`, which `|| 0` turns into 0.
   */
  lemma ParseIntOrZeroOfNonNumber(w: string, t: string)
    requires AllWhitespace(w)
    requires t != [] && !IsWhitespace(t[0]) && !IsDigit(t[0]) && t[0] != '-' && t[0] != '+'
    ensures ParseInt(w + t).None?
    ensures ParseIntOrZero(w + t) == 0
  {
    TrimStartOfWhitespace(w, t);
  }

  // ----- lengths as JavaScript counts them -----

  /** The UTF-16 code units of one character: two for a character above U+FFFF. */
  function Utf16Units(c: char): nat {
    if c as int > 0xFFFF then 2 else 1
  }

  /**
   * `s.length` in JavaScript: the number of UTF-16 code units, which is the
   * number of characters plus one for each character outside the Basic
   * Multilingual Plane.
   */
  function Utf16Length(s: string): (n: nat)
    ensures |s| <= n <= 2 * |s|
    ensures n == |s| <==> forall i :: 0 <= i < |s| ==> s[i] as int <= 0xFFFF
    ensures n == 2 * |s| <==> forall i :: 0 <= i < |s| ==> s[i] as int > 0xFFFF
  {
    if s == [] then 0
    else
      var n := Utf16Units(s[0]) + Utf16Length(s[1..]);
      assert forall i :: 1 <= i < |s| ==> s[i] == s[1..][i - 1];
      n
  }
}
