/**
 * The pieces of Python's `str` behaviour the services rely on: `lower()`,
 * `isspace()` (as used by `split()` and `strip()`), `string.punctuation`,
 * `str(n)` for a counter and `int(s)` for query arguments.
 */
module Text {
  import opened Wrappers

  // ----- characters -----

  /** The ASCII capitals, the characters `lower()` changes in this model. */
  predicate IsUpper(c: char) { 'A' <= c <= 'Z' }

  function LowerChar(c: char): (r: char)
    ensures !IsUpper(r)
    ensures IsUpper(c) ==> r as int == c as int + 32
    ensures !IsUpper(c) ==> r == c
  {
    if IsUpper(c) then (c as int + 32) as char else c
  }

  /** The characters Python's `str.isspace()` accepts (all of them are below U+3001). */
  predicate IsSpace(c: char) {
    var n := c as int;
    n == 0x20 || 0x09 <= n <= 0x0D || 0x1C <= n <= 0x1F || n == 0x85 || n == 0xA0
    || n == 0x1680 || 0x2000 <= n <= 0x200A || n == 0x2028 || n == 0x2029
    || n == 0x202F || n == 0x205F || n == 0x3000
  }

  /** The 32 characters of `string.punctuation`. */
  predicate IsPunctuation(c: char) {
    ('!' <= c <= '/') || (':' <= c <= '@') || ('[' <= c <= '`') || ('{' <= c <= '~')
  }

  predicate IsDigit(c: char) { '0' <= c <= '9' }

  function DigitValue(c: char): (d: nat)
    requires IsDigit(c)
    ensures d < 10
  {
    c as int - '0' as int
  }

  function DigitChar(d: nat): (c: char)
    requires d < 10
    ensures IsDigit(c) && DigitValue(c) == d
  {
    ('0' as int + d) as char
  }

  predicate AllDigits(s: string) {
    forall i :: 0 <= i < |s| ==> IsDigit(s[i])
  }

  // ----- lower() -----

  /** `s.lower()`, character by character. */
  function Lower(s: string): (r: string)
    ensures |r| == |s|
    ensures forall i :: 0 <= i < |s| ==> r[i] == LowerChar(s[i])
  {
    if s == [] then [] else [LowerChar(s[0])] + Lower(s[1..])
  }

  lemma LowerIdempotent(s: string)
    ensures Lower(Lower(s)) == Lower(s)
  {
  }

  /** A string with no capital is its own `lower()`. */
  lemma LowerOfLowercase(s: string)
    requires forall i :: 0 <= i < |s| ==> !IsUpper(s[i])
    ensures Lower(s) == s
  {
  }

  /**
   * The index of the first element whose key equals `name` ignoring case
   * (`x.lower() == name.lower()`), the search every "first match" loop makes.
   */
  function FirstCaseless<T>(s: seq<T>, key: T -> string, name: string): (r: Option<nat>)
    ensures r.Some? ==> r.value < |s| && Lower(key(s[r.value])) == Lower(name)
    ensures r.Some? ==> forall j :: 0 <= j < r.value ==> Lower(key(s[j])) != Lower(name)
    ensures r.None? <==> forall j :: 0 <= j < |s| ==> Lower(key(s[j])) != Lower(name)
  {
    if s == [] then None
    else if Lower(key(s[0])) == Lower(name) then Some(0)
    else match FirstCaseless(s[1..], key, name)
      case None => None
      case Some(i) => Some(i + 1)
  }

  /** The first index whose key matches is the one FirstCaseless returns. */
  lemma FirstCaselessAt<T>(s: seq<T>, key: T -> string, name: string, i: nat)
    requires i < |s| && Lower(key(s[i])) == Lower(name)
    requires forall j :: 0 <= j < i ==> Lower(key(s[j])) != Lower(name)
    ensures FirstCaseless(s, key, name) == Some(i)
    decreases i
  {
    if i > 0 {
      assert Lower(key(s[0])) != Lower(name);
      assert s[1..][i - 1] == s[i];
      assert forall j :: 0 <= j < i - 1 ==> s[1..][j] == s[j + 1];
      FirstCaselessAt(s[1..], key, name, i - 1);
    }
  }

  // ----- strip() -----

  /** `s.lstrip()`: the suffix left after dropping leading white space. */
  function StripLeft(s: string): (r: string)
    ensures |r| <= |s| && r == s[|s| - |r|..]
    ensures forall k :: 0 <= k < |s| - |r| ==> IsSpace(s[k])
    ensures r != [] ==> !IsSpace(r[0])
  {
    if s != [] && IsSpace(s[0]) then StripLeft(s[1..]) else s
  }

  /** `s.rstrip()`: the prefix left after dropping trailing white space. */
  function StripRight(s: string): (r: string)
    ensures |r| <= |s| && r == s[..|r|]
    ensures forall k :: |r| <= k < |s| ==> IsSpace(s[k])
    ensures r != [] ==> !IsSpace(r[|r| - 1])
  {
    if s != [] && IsSpace(s[|s| - 1]) then StripRight(s[..|s| - 1]) else s
  }

  /** `s.strip()`. */
  function Strip(s: string): string {
    StripRight(StripLeft(s))
  }

  /** A string with no white space at either end is its own `strip()`. */
  lemma StripUnspaced(s: string)
    requires s != [] && !IsSpace(s[0]) && !IsSpace(s[|s| - 1])
    ensures Strip(s) == s
  {
  }

  // ----- decimal numerals -----

  /** The value of a string of decimal digits. */
  function DigitsValue(s: string): nat
    requires AllDigits(s)
  {
    if s == [] then 0 else 10 * DigitsValue(s[..|s| - 1]) + DigitValue(s[|s| - 1])
  }

  /** `str(n)` for a natural number `n`: no sign, no leading zeros. */
  function NatToString(n: nat): (s: string)
    ensures |s| > 0 && AllDigits(s)
    ensures |s| > 1 ==> s[0] != '0'
  {
    if n < 10 then [DigitChar(n)] else NatToString(n / 10) + [DigitChar(n % 10)]
  }

  lemma {:induction false} DigitsValueOfNatToString(n: nat)
    ensures DigitsValue(NatToString(n)) == n
  {
    if n >= 10 {
      DigitsValueOfNatToString(n / 10);
      var s := NatToString(n);
      assert s[..|s| - 1] == NatToString(n / 10);
    }
  }

  /** Different numbers have different decimal strings. */
  lemma NatToStringInjective(a: nat, b: nat)
    ensures NatToString(a) == NatToString(b) ==> a == b
  {
    DigitsValueOfNatToString(a);
    DigitsValueOfNatToString(b);
  }

  // ----- int() -----

  /**
   * The four ASCII separators U+001C to U+001F: `isspace()` counts them as white
   * space, but `int()` does not strip them.
   */
  predicate IsSeparatorControl(c: char) { 0x1C <= c as int <= 0x1F }

  /**
   * `int(s)` on a string: white space around an optional sign and one or more
   * decimal digits; anything else is the `ValueError` case, None. `int()` strips
   * the white space of `strip()` less the four separators, and no numeral holds
   * a separator, so a string that contains one is never a number.
   */
  function ParseInt(s: string): Option<int>
  {
    if exists i | 0 <= i < |s| :: IsSeparatorControl(s[i]) then None
    else ParseNumeral(Strip(s))
  }

  /** A separator before or after a numeral makes `int()` fail, although `strip()` would remove it. */
  lemma ParseIntRejectsSeparators(n: nat, c: char)
    requires IsSeparatorControl(c)
    ensures ParseInt([c] + NatToString(n)) == None
    ensures ParseInt(NatToString(n) + [c]) == None
  {
    var t := NatToString(n);
    assert ([c] + t)[0] == c;
    assert (t + [c])[|t|] == c;
  }

  /** What `int()` accepts once the white space is gone: an optional sign and digits. */
  function ParseNumeral(t: string): (r: Option<int>)
    ensures r.Some? <==> (|t| > 0 && AllDigits(t)) || (|t| > 1 && (t[0] == '-' || t[0] == '+') && AllDigits(t[1..]))
  {
    if |t| > 1 && (t[0] == '-' || t[0] == '+') && AllDigits(t[1..]) then
      var v: int := DigitsValue(t[1..]);
      Some(if t[0] == '-' then -v else v)
    else if |t| > 0 && AllDigits(t) then
      Some(DigitsValue(t))
    else
      None
  }

  /** `int(s)` reads back every numeral `str` writes for a natural number. */
  lemma ParseIntOfNumeral(n: nat)
    ensures ParseInt(NatToString(n)) == Some(n)
  {
    DigitsValueOfNatToString(n);
    ParseIntOfDigits(NatToString(n));
  }

  /** An unsigned string of digits is read as its decimal value. */
  lemma ParseIntOfDigits(t: string)
    requires |t| > 0 && AllDigits(t)
    ensures ParseInt(t) == Some(DigitsValue(t))
  {
    assert IsDigit(t[0]) && IsDigit(t[|t| - 1]);
    assert forall i | 0 <= i < |t| :: !IsSeparatorControl(t[i]) by {
      forall i | 0 <= i < |t| ensures !IsSeparatorControl(t[i]) { assert IsDigit(t[i]); }
    }
    StripUnspaced(t);
  }

  /** ... and its negation, written with a leading minus sign. */
  lemma ParseIntOfNegativeNumeral(n: nat, m: string)
    requires m == "-" + NatToString(n)
    ensures ParseInt(m) == Some(-(n as int))
  {
    var s := NatToString(n);
    DigitsValueOfNatToString(n);
    assert m[1..] == s;
    assert m[|m| - 1] == s[|s| - 1];
    StripUnspaced(m);
    assert AllDigits(m[1..]) && DigitsValue(m[1..]) == n;
    assert ParseNumeral(m) == Some(-(n as int));
  }
}
