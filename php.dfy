/**
 * The PHP string built-ins the import commands rely on, over ASCII strings:
 * `ucwords`, `strtolower`, `empty` on a string, `substr`, `explode(',', ...)`,
 * the string-to-integer conversion `sprintf('%d', ...)` applies to its argument,
 * and `sprintf('%0Nd', ...)` itself.
 */
module Php {

  // ---------------------------------------------------------------------------
  // Characters
  // ---------------------------------------------------------------------------

  /** Space, tab, carriage return, line feed, form feed, vertical tab: the default
      word delimiters of `ucwords` and the white space PHP skips before a number. */
  predicate IsSpace(c: char) {
    c == ' ' || c == '\t' || c == '\r' || c == '\n' || c as int == 12 || c as int == 11
  }

  function ToUpperChar(c: char): (r: char)
    ensures 'a' <= c <= 'z' ==> 'A' <= r <= 'Z' && r as int == c as int - 32
    ensures !('a' <= c <= 'z') ==> r == c
  {
    if 'a' <= c <= 'z' then (c as int - 32) as char else c
  }

  function ToLowerChar(c: char): (r: char)
    ensures 'A' <= c <= 'Z' ==> 'a' <= r <= 'z' && r as int == c as int + 32
    ensures !('A' <= c <= 'Z') ==> r == c
  {
    if 'A' <= c <= 'Z' then (c as int + 32) as char else c
  }

  predicate IsDigit(c: char) { '0' <= c <= '9' }

  predicate AllDigits(s: string) { forall i :: 0 <= i < |s| ==> IsDigit(s[i]) }

  function DigitVal(c: char): nat
    requires IsDigit(c)
  {
    c as int - '0' as int
  }

  function DigitChar(d: nat): (c: char)
    requires d < 10
    ensures IsDigit(c) && DigitVal(c) == d
  {
    ('0' as int + d) as char
  }

  // ---------------------------------------------------------------------------
  // strtolower, ucwords, empty, substr
  // ---------------------------------------------------------------------------

  /** `strtolower(s)`: every ASCII capital letter replaced by its small letter. */
  function Lower(s: string): (r: string)
    ensures |r| == |s|
    ensures forall i :: 0 <= i < |s| ==> r[i] == ToLowerChar(s[i])
  {
    seq(|s|, i requires 0 <= i < |s| => ToLowerChar(s[i]))
  }

  function UcWordsFrom(s: string, atWordStart: bool): string
    decreases |s|
  {
    if s == [] then []
    else [if atWordStart then ToUpperChar(s[0]) else s[0]] + UcWordsFrom(s[1..], IsSpace(s[0]))
  }

  /** `ucwords(s)`: the first character of every word upper-cased. */
  function UcWords(s: string): string {
    UcWordsFrom(s, true)
  }

  /** Position `i` of `s` begins a word: it is the first position or follows a delimiter. */
  predicate StartsWord(s: string, i: int)
    requires 0 <= i < |s|
  {
    i == 0 || IsSpace(s[i - 1])
  }

  lemma {:induction false} UcWordsFromAt(s: string, b: bool)
    ensures |UcWordsFrom(s, b)| == |s|
    ensures forall i :: 0 <= i < |s| ==>
      UcWordsFrom(s, b)[i] == if (i == 0 && b) || (i > 0 && IsSpace(s[i - 1])) then ToUpperChar(s[i]) else s[i]
  {
    if s != [] {
      UcWordsFromAt(s[1..], IsSpace(s[0]));
      var r := UcWordsFrom(s, b);
      assert r == [if b then ToUpperChar(s[0]) else s[0]] + UcWordsFrom(s[1..], IsSpace(s[0]));
      forall i | 0 < i < |s|
        ensures r[i] == if IsSpace(s[i - 1]) then ToUpperChar(s[i]) else s[i]
      {
        assert r[i] == UcWordsFrom(s[1..], IsSpace(s[0]))[i - 1];
        assert s[1..][i - 1] == s[i];
        if i > 1 {
          assert s[1..][i - 2] == s[i - 1];
        }
      }
    }
  }

  /** `ucwords` upper-cases exactly the characters that begin a word and leaves
      every other character as it was; it never changes the length. */
  lemma UcWordsAt(s: string)
    ensures |UcWords(s)| == |s|
    ensures forall i :: 0 <= i < |s| ==>
      UcWords(s)[i] == if StartsWord(s, i) then ToUpperChar(s[i]) else s[i]
  {
    UcWordsFromAt(s, true);
  }

  /** Title-casing a title-cased string changes nothing. */
  lemma UcWordsIdempotent(s: string)
    ensures UcWords(UcWords(s)) == UcWords(s)
  {
    var t := UcWords(s);
    UcWordsAt(s);
    UcWordsAt(t);
    forall i | 0 <= i < |s|
      ensures UcWords(t)[i] == t[i]
    {
      if i > 0 {
        assert IsSpace(t[i - 1]) == IsSpace(s[i - 1]);
      }
    }
  }

  /** PHP's `empty($v)` for a string: the empty string and the string "0". */
  predicate IsEmpty(s: string) {
    s == "" || s == "0"
  }

  /** `substr(s, start, len)` for non-negative arguments. */
  function Substr(s: string, start: nat, len: nat): (r: string)
    ensures |r| == if start >= |s| then 0 else if start + len <= |s| then len else |s| - start
    ensures forall i :: 0 <= i < |r| ==> r[i] == s[start + i]
  {
    if start >= |s| then "" else s[start..if start + len <= |s| then start + len else |s|]
  }

  // ---------------------------------------------------------------------------
  // explode(',', s) and its inverse implode(',', parts)
  // ---------------------------------------------------------------------------

  /** `explode(',', s)`: the pieces between commas, in order; never empty. */
  function Explode(s: string): (parts: seq<string>)
    ensures |parts| >= 1
    decreases |s|
  {
    if s == [] then [""]
    else
      var rest := Explode(s[1..]);
      if s[0] == ',' then [""] + rest
      else [[s[0]] + rest[0]] + rest[1..]
  }

  /** `implode(',', parts)`. */
  function Implode(parts: seq<string>): string
    requires |parts| >= 1
    decreases |parts|
  {
    if |parts| == 1 then parts[0] else parts[0] + "," + Implode(parts[1..])
  }

  /** Splitting on commas loses nothing: joining the pieces gives the string back,
      and no piece holds a comma. */
  lemma {:induction false} ImplodeExplode(s: string)
    ensures Implode(Explode(s)) == s
    ensures forall p :: p in Explode(s) ==> ',' !in p
    decreases |s|
  {
    if s != [] {
      var rest := Explode(s[1..]);
      ImplodeExplode(s[1..]);
      if s[0] == ',' {
        assert Explode(s) == [""] + rest;
        assert Implode(Explode(s)) == "" + "," + Implode(rest);
        assert s == [s[0]] + s[1..];
      } else {
        var parts := Explode(s);
        assert parts == [[s[0]] + rest[0]] + rest[1..];
        assert ',' !in rest[0];
        assert ',' !in [s[0]] + rest[0];
        forall p | p in parts ensures ',' !in p {
          if p != parts[0] {
            assert p in rest;
          }
        }
        if |rest| == 1 {
          assert Implode(parts) == [s[0]] + rest[0];
        } else {
          assert parts[1..] == rest[1..];
          assert Implode(parts) == ([s[0]] + rest[0]) + "," + Implode(rest[1..]);
          assert Implode(rest) == rest[0] + "," + Implode(rest[1..]);
        }
        assert s == [s[0]] + s[1..];
      }
    }
  }

  // ---------------------------------------------------------------------------
  // Decimal digits
  // ---------------------------------------------------------------------------

  function DigitValue(s: string): nat
    requires AllDigits(s)
    decreases |s|
  {
    if s == [] then 0 else DigitValue(s[..|s| - 1]) * 10 + DigitVal(s[|s| - 1])
  }

  /** The decimal representation of `n`, without leading zeros. */
  function DigitsOf(n: nat): (r: string)
    ensures AllDigits(r) && |r| >= 1
    decreases n
  {
    if n < 10 then [DigitChar(n)] else DigitsOf(n / 10) + [DigitChar(n % 10)]
  }

  function Zeros(k: nat): (r: string)
    ensures |r| == k && AllDigits(r)
    ensures forall i :: 0 <= i < k ==> r[i] == '0'
  {
    seq(k, _ => '0')
  }

  /** Left-pad with '0' to `width` characters; a longer string is kept whole. */
  function ZeroPad(s: string, width: nat): string {
    if |s| < width then Zeros(width - |s|) + s else s
  }

  /** `sprintf("%0<width>d", n)` (the pad character set by `'.` is overridden by the
      later `0` flag); a minus sign is written before the padding. */
  function FormatInt(n: int, width: nat): string {
    if n < 0 then "-" + ZeroPad(DigitsOf(-n), if width > 0 then width - 1 else 0)
    else ZeroPad(DigitsOf(n), width)
  }

  function SkipSpace(s: string): (r: string)
    ensures |r| <= |s| && r == s[|s| - |r|..]
    decreases |s|
  {
    if |s| > 0 && IsSpace(s[0]) then SkipSpace(s[1..]) else s
  }

  function DigitPrefix(s: string): (r: string)
    ensures AllDigits(r) && |r| <= |s| && r == s[..|r|]
    decreases |s|
  {
    if |s| > 0 && IsDigit(s[0]) then [s[0]] + DigitPrefix(s[1..]) else []
  }

  /** PHP's integers are 64 bits wide. */
  const PhpIntMax: int := 0x7fff_ffff_ffff_ffff
  const PhpIntMin: int := -0x8000_0000_0000_0000

  /** The number a string spells where one is expected: leading white space, an
      optional sign and the longest run of digits; 0 when there is none. */
  function DecimalValue(s: string): int {
    var t := SkipSpace(s);
    if |t| > 0 && t[0] == '-' then -(DigitValue(DigitPrefix(t[1..])) as int)
    else if |t| > 0 && t[0] == '+' then DigitValue(DigitPrefix(t[1..]))
    else DigitValue(DigitPrefix(t))
  }

  /** The least magnitude a correctly rounded decimal-to-double conversion turns
      into infinity: 2^1024 - 2^970, half a unit in the last place above the
      largest finite double (about 1.8e308). */
  const DoubleOverflow: int := 0xff_ffff_ffff_fffc00000000000000000000000000000000000000000000000000000000000000000000000000000000000000000000000000000000000000000000000000000000000000000000000000000000000000000000000000000000000000000000000000000000000000000000000000000000000000000000000000

  /** The integer PHP reads out of such a string. A number that fits in 64 bits
      is kept. A longer one is read as a double first: a finite double is
      saturated to PHP_INT_MAX or PHP_INT_MIN, and an infinite one becomes 0. */
  function IntVal(s: string): (r: int)
    ensures PhpIntMin <= r <= PhpIntMax
    ensures PhpIntMin <= DecimalValue(s) <= PhpIntMax ==> r == DecimalValue(s)
    ensures PhpIntMax < DecimalValue(s) < DoubleOverflow ==> r == PhpIntMax
    ensures -DoubleOverflow < DecimalValue(s) < PhpIntMin ==> r == PhpIntMin
    ensures DecimalValue(s) >= DoubleOverflow || DecimalValue(s) <= -DoubleOverflow ==> r == 0
  {
    var v := DecimalValue(s);
    if v >= DoubleOverflow || v <= -DoubleOverflow then 0
    else if v > PhpIntMax then PhpIntMax
    else if v < PhpIntMin then PhpIntMin
    else v
  }

  lemma {:induction false} DigitPrefixAll(s: string)
    requires AllDigits(s)
    ensures DigitPrefix(s) == s
    decreases |s|
  {
    if |s| > 0 {
      DigitPrefixAll(s[1..]);
      assert s == [s[0]] + s[1..];
    }
  }

  /** The run of digits ends at the first non-digit. */
  lemma {:induction false} DigitPrefixStops(s: string, k: nat)
    requires k <= |s| && AllDigits(s[..k]) && (k == |s| || !IsDigit(s[k]))
    ensures DigitPrefix(s) == s[..k]
    decreases k
  {
    if k > 0 {
      assert IsDigit(s[..k][0]);
      assert s[1..][..k - 1] == s[1..k];
      assert k - 1 == |s[1..]| || s[1..][k - 1] == s[k];
      DigitPrefixStops(s[1..], k - 1);
      assert s[..k] == [s[0]] + s[1..k];
    }
  }

  lemma {:induction false} DigitValueOfDigitsOf(n: nat)
    ensures DigitValue(DigitsOf(n)) == n
    decreases n
  {
    if n >= 10 {
      DigitValueOfDigitsOf(n / 10);
      var d := DigitsOf(n / 10) + [DigitChar(n % 10)];
      assert d[..|d| - 1] == DigitsOf(n / 10);
    }
  }

  lemma {:induction false} ZerosValue(k: nat)
    ensures DigitValue(Zeros(k)) == 0
    decreases k
  {
    if k > 0 {
      ZerosValue(k - 1);
      assert Zeros(k)[..k - 1] == Zeros(k - 1);
    }
  }

  lemma {:induction false} LeadingZerosValue(k: nat, s: string)
    requires AllDigits(s)
    ensures DigitValue(Zeros(k) + s) == DigitValue(s)
    decreases |s|
  {
    if s == [] {
      assert Zeros(k) + s == Zeros(k);
      ZerosValue(k);
    } else {
      var z := Zeros(k) + s;
      assert z[..|z| - 1] == Zeros(k) + s[..|s| - 1];
      LeadingZerosValue(k, s[..|s| - 1]);
    }
  }

  lemma ZerosConcat(a: nat, b: nat)
    ensures Zeros(a) + Zeros(b) == Zeros(a + b)
  {
  }

  /** A digit string in canonical form: non-empty, and no leading zero unless it is "0". */
  predicate Canonical(s: string) {
    AllDigits(s) && |s| >= 1 && (s[0] != '0' || |s| == 1)
  }

  lemma {:induction false} PositiveValue(s: string)
    requires AllDigits(s) && |s| >= 1 && s[0] != '0'
    ensures DigitValue(s) >= 1
    decreases |s|
  {
    if |s| > 1 {
      PositiveValue(s[..|s| - 1]);
    }
  }

  lemma {:induction false} DigitsOfDigitValue(s: string)
    requires Canonical(s)
    ensures DigitsOf(DigitValue(s)) == s
    decreases |s|
  {
    if |s| > 1 {
      var p := s[..|s| - 1];
      var d := DigitVal(s[|s| - 1]);
      PositiveValue(p);
      DigitsOfDigitValue(p);
      var n := DigitValue(s);
      assert n == DigitValue(p) * 10 + d;
      assert n / 10 == DigitValue(p) && n % 10 == d;
      assert DigitChar(d) == s[|s| - 1];
      assert s == p + [s[|s| - 1]];
    } else {
      assert DigitChar(DigitVal(s[0])) == s[0];
    }
  }

  function StripZeros(s: string): (t: string)
    requires AllDigits(s) && |s| >= 1
    ensures Canonical(t) && |t| <= |s|
    ensures s == Zeros(|s| - |t|) + t
    decreases |s|
  {
    if |s| > 1 && s[0] == '0' then
      var t := StripZeros(s[1..]);
      assert s == [s[0]] + s[1..];
      assert Zeros(|s| - |t|) == ['0'] + Zeros(|s| - 1 - |t|);
      t
    else s
  }

  lemma SkipSpaceNone(s: string)
    requires |s| > 0 && !IsSpace(s[0])
    ensures SkipSpace(s) == s
  {
  }

  /** The integer read out of a string that starts with a digit or a sign. */
  lemma DecimalUnsigned(t: string)
    requires |t| > 0 && !IsSpace(t[0]) && t[0] != '-' && t[0] != '+'
    ensures DecimalValue(t) == DigitValue(DigitPrefix(t))
  {
    SkipSpaceNone(t);
  }

  lemma DecimalNegative(t: string)
    requires |t| > 0 && t[0] == '-'
    ensures DecimalValue(t) == -(DigitValue(DigitPrefix(t[1..])) as int)
  {
    SkipSpaceNone(t);
  }

  lemma DecimalOfDigits(v: string)
    requires AllDigits(v) && |v| >= 1
    ensures DecimalValue(v) == DigitValue(v)
  {
    assert IsDigit(v[0]);
    DecimalUnsigned(v);
    DigitPrefixAll(v);
  }

  /** A digit string whose number fits in 64 bits reads as that number. */
  lemma IntValOfDigits(v: string)
    requires AllDigits(v) && |v| >= 1 && DigitValue(v) <= PhpIntMax
    ensures IntVal(v) == DigitValue(v)
  {
    DecimalOfDigits(v);
  }

  /** A digit string whose number does not fit in 64 bits, but does fit in a
      double, reads as PHP_INT_MAX. */
  lemma IntValSaturates(v: string)
    requires AllDigits(v) && |v| >= 1 && PhpIntMax < DigitValue(v) < DoubleOverflow
    ensures IntVal(v) == PhpIntMax
  {
    DecimalOfDigits(v);
  }

  /** A digit string whose number is beyond the range of a double reads as 0. */
  lemma IntValOverflowsDouble(v: string)
    requires AllDigits(v) && |v| >= 1 && DigitValue(v) >= DoubleOverflow
    ensures IntVal(v) == 0
  {
    DecimalOfDigits(v);
  }

  function Pow10(k: nat): (r: nat)
    ensures r >= 1
  {
    if k == 0 then 1 else 10 * Pow10(k - 1)
  }

  /** k digits spell a number below 10^k. */
  lemma {:induction false} DigitValueBelow(s: string)
    requires AllDigits(s)
    ensures DigitValue(s) < Pow10(|s|)
    decreases |s|
  {
    if s != [] {
      DigitValueBelow(s[..|s| - 1]);
    }
  }

  lemma {:induction false} Pow10Grows(j: nat, k: nat)
    requires j <= k
    ensures Pow10(j) <= Pow10(k)
    decreases k
  {
    if j < k {
      Pow10Grows(j, k - 1);
    }
  }

  lemma {:induction false} Pow10Add(a: nat, b: nat)
    ensures Pow10(a + b) == Pow10(a) * Pow10(b)
    decreases a
  {
    if a > 0 {
      Pow10Add(a - 1, b);
    }
  }

  /** Eighteen digits or fewer always fit in 64 bits. */
  lemma ShortDigitsFit(s: string)
    requires AllDigits(s) && |s| <= 18
    ensures DigitValue(s) <= PhpIntMax
  {
    DigitValueBelow(s);
    Pow10Grows(|s|, 18);
    assert Pow10(3) == 1000;
    Pow10Add(3, 3);
    Pow10Add(6, 6);
    Pow10Add(12, 6);
  }

  /** A number of at least 10^k has more than k digits. */
  lemma {:induction false} DigitsOfLonger(n: nat, k: nat)
    requires n >= Pow10(k)
    ensures |DigitsOf(n)| > k
    decreases k
  {
    if k > 0 {
      DigitsOfLonger(n / 10, k - 1);
    }
  }

  lemma FormatIntNonNegative(n: nat, width: nat)
    ensures FormatInt(n, width) == ZeroPad(DigitsOf(n), width)
  {
  }

  lemma ZeroPadZeros(t: string, j: nat, width: nat)
    requires |t| + j <= width
    ensures ZeroPad(t, width) == Zeros(width - |t| - j) + (Zeros(j) + t)
  {
    var k := width - |t| - j;
    assert Zeros(k) + (Zeros(j) + t) == (Zeros(k) + Zeros(j)) + t;
    ZerosConcat(k, j);
    if |t| == width {
      assert Zeros(0) + t == t;
    }
  }

  /** Formatting a digit string of at most `width` digits with `%0<width>d` left-pads
      it with zeros to exactly `width` characters and keeps every digit, leading
      zeros included. */
  lemma FormatIntOfDigits(v: string, width: nat)
    requires AllDigits(v) && 1 <= |v| <= width && DigitValue(v) <= PhpIntMax
    ensures FormatInt(IntVal(v), width) == Zeros(width - |v|) + v
  {
    IntValOfDigits(v);
    FormatDigitValue(v, width);
  }

  lemma FormatDigitValue(v: string, width: nat)
    requires AllDigits(v) && 1 <= |v| <= width
    ensures FormatInt(DigitValue(v), width) == Zeros(width - |v|) + v
  {
    var t := StripZeros(v);
    var j := |v| - |t|;
    assert v == Zeros(j) + t;
    LeadingZerosValue(j, t);
    DigitsOfDigitValue(t);
    var n := DigitValue(v);
    assert DigitsOf(n) == t;
    FormatIntNonNegative(n, width);
    ZeroPadZeros(t, j, width);
  }

  lemma DigitValueZeroPadded(m: nat, w: nat)
    ensures AllDigits(ZeroPad(DigitsOf(m), w)) && |ZeroPad(DigitsOf(m), w)| >= 1
    ensures DigitValue(ZeroPad(DigitsOf(m), w)) == m
  {
    var d := DigitsOf(m);
    var body := ZeroPad(d, w);
    var k: nat := |body| - |d|;
    assert body == Zeros(k) + d;
    LeadingZerosValue(k, d);
    DigitValueOfDigitsOf(m);
  }

  lemma FormatIntNegative(n: int, width: nat)
    requires n < 0
    ensures FormatInt(n, width) == "-" + ZeroPad(DigitsOf(-n), if width > 0 then width - 1 else 0)
  {
  }

  lemma DecimalNegativePadded(m: nat, w: nat)
    requires m > 0
    ensures DecimalValue("-" + ZeroPad(DigitsOf(m), w)) == -(m as int)
  {
    var body := ZeroPad(DigitsOf(m), w);
    DigitValueZeroPadded(m, w);
    var s := "-" + body;
    assert s[1..] == body;
    DecimalNegative(s);
    DigitPrefixAll(body);
  }

  lemma DecimalPadded(m: nat, w: nat)
    ensures DecimalValue(ZeroPad(DigitsOf(m), w)) == m
  {
    DigitValueZeroPadded(m, w);
    DecimalOfDigits(ZeroPad(DigitsOf(m), w));
  }

  /** `%0Nd` formatting of a 64-bit integer round-trips through PHP's
      string-to-integer conversion. */
  lemma IntValFormatInt(n: int, width: nat)
    requires PhpIntMin <= n <= PhpIntMax
    ensures IntVal(FormatInt(n, width)) == n
  {
    var f := FormatInt(n, width);
    if n < 0 {
      var m: nat := -n;
      var w: nat := if width > 0 then width - 1 else 0;
      FormatIntNegative(n, width);
      assert f == "-" + ZeroPad(DigitsOf(m), w);
      DecimalNegativePadded(m, w);
    } else {
      FormatIntNonNegative(n, width);
      DecimalPadded(n, width);
    }
  }
}
