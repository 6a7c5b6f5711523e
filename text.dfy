/** Text helpers the generators use to build identifiers and constants:
    Python's `%d` / `str()` of an integer, `hex(x)[2:].zfill(4).upper()`,
    ASCII `str.upper()`, `name.split("_")[0]`, and the ordering `sorted()`
    applies to strings. The integer and hex renderings come with the parser
    that reads their output back; upper-casing and the first token are
    characterised by lemmas, and the order is shown total and transitive. */
module Text {

  // ---------------------------------------------------------------------------
  // Decimal numbers (`%d` and `str()` of an int)
  // ---------------------------------------------------------------------------

  predicate IsDigit(c: char) { '0' <= c <= '9' }

  function DigitChar(d: nat): (c: char)
    requires d < 10
    ensures IsDigit(c) && c as int - '0' as int == d
  {
    "0123456789"[d]
  }

  function DigitValue(c: char): (d: nat)
    requires IsDigit(c)
    ensures d < 10
  {
    c as int - '0' as int
  }

  /** `str(n)` for a non-negative integer: its decimal digits, most significant
      first, without leading zeros. */
  function Decimal(n: nat): (s: string)
    ensures |s| >= 1
    ensures forall i :: 0 <= i < |s| ==> IsDigit(s[i])
    ensures |s| > 1 ==> s[0] != '0'
    decreases n
  {
    if n < 10 then [DigitChar(n)] else Decimal(n / 10) + [DigitChar(n % 10)]
  }

  /** The value of a string of decimal digits. */
  function ParseDecimal(s: string): nat
    requires forall i :: 0 <= i < |s| ==> IsDigit(s[i])
  {
    if s == [] then 0
    else ParseDecimal(s[..|s| - 1]) * 10 + DigitValue(s[|s| - 1])
  }

  lemma {:induction false} DecimalRoundTrip(n: nat)
    ensures ParseDecimal(Decimal(n)) == n
    decreases n
  {
    if n >= 10 {
      var d := Decimal(n / 10);
      assert (d + [DigitChar(n % 10)])[..|d|] == d;
      DecimalRoundTrip(n / 10);
    }
  }

  /** Decimal rendering never maps two numbers to the same text. */
  lemma DecimalInjective(m: nat, n: nat)
    requires Decimal(m) == Decimal(n)
    ensures m == n
  {
    DecimalRoundTrip(m);
    DecimalRoundTrip(n);
  }

  /** `str(i)` for any integer: a minus sign before the digits of a negative value. */
  function IntToString(i: int): (s: string)
  {
    if i < 0 then "-" + Decimal(-i) else Decimal(i)
  }

  /** Reads back what IntToString writes. */
  function ParseInt(s: string): int
    requires IsIntText(s)
  {
    if s[0] == '-' then -(ParseDecimal(s[1..]) as int) else ParseDecimal(s)
  }

  predicate IsIntText(s: string)
  {
    |s| >= 1 && forall k :: 0 <= k < |s| ==> IsDigit(s[k]) || (k == 0 && s[k] == '-')
  }

  lemma IntToStringRoundTrip(i: int)
    ensures IsIntText(IntToString(i)) && ParseInt(IntToString(i)) == i
  {
    var d := Decimal(if i < 0 then -i else i);
    DecimalRoundTrip(if i < 0 then -i else i);
    if i < 0 {
      var s := "-" + d;
      assert s[1..] == d;
      assert forall k :: 1 <= k < |s| ==> s[k] == d[k - 1];
      assert IsIntText(s);
    }
  }

  // ---------------------------------------------------------------------------
  // Hexadecimal addresses (`hex(x)[2:].zfill(4).upper()`)
  // ---------------------------------------------------------------------------

  predicate IsHexDigit(c: char) { '0' <= c <= '9' || 'A' <= c <= 'F' }

  function HexValue(c: char): (v: nat)
    requires IsHexDigit(c)
    ensures v < 16
  {
    if '0' <= c <= '9' then c as int - '0' as int else c as int - 'A' as int + 10
  }

  function HexChar(d: nat): (c: char)
    requires d < 16
    ensures IsHexDigit(c) && HexValue(c) == d
  {
    "0123456789ABCDEF"[d]
  }

  /** `hex(n)[2:].upper()`: the upper-case hexadecimal digits of n without the
      `0x` prefix and without leading zeros. */
  function HexDigits(n: nat): (s: string)
    ensures |s| >= 1
    ensures forall i :: 0 <= i < |s| ==> IsHexDigit(s[i])
    ensures |s| > 1 ==> s[0] != '0'
    decreases n
  {
    if n < 16 then [HexChar(n)] else HexDigits(n / 16) + [HexChar(n % 16)]
  }

  function Zeros(k: nat): (z: string)
    ensures |z| == k && forall i :: 0 <= i < k ==> z[i] == '0'
  {
    if k == 0 then [] else Zeros(k - 1) + ['0']
  }

  /** Python's `str.zfill(width)` on a string without a sign: pads on the left
      with '0' up to `width` characters and never truncates. */
  function ZeroFill(s: string, width: nat): (r: string)
    ensures |s| >= width ==> r == s
    ensures |s| < width ==> r == Zeros(width - |s|) + s
  {
    if |s| >= width then s else Zeros(width - |s|) + s
  }

  /** An address as the generators print it: `hex(n)[2:].zfill(4).upper()`.
      Upper-casing the lower-case digits of `hex` is the same as writing the
      digits in upper case. */
  function HexAddress(n: nat): (h: string)
    ensures |h| >= 4
    ensures forall i :: 0 <= i < |h| ==> IsHexDigit(h[i])
  {
    ZeroFill(HexDigits(n), 4)
  }

  /** The value of a string of upper-case hexadecimal digits. */
  function ParseHex(s: string): nat
    requires forall i :: 0 <= i < |s| ==> IsHexDigit(s[i])
  {
    if s == [] then 0 else ParseHex(s[..|s| - 1]) * 16 + HexValue(s[|s| - 1])
  }

  lemma {:induction false} HexDigitsRoundTrip(n: nat)
    ensures ParseHex(HexDigits(n)) == n
    decreases n
  {
    if n >= 16 {
      var d := HexDigits(n / 16);
      assert (d + [HexChar(n % 16)])[..|d|] == d;
      HexDigitsRoundTrip(n / 16);
    }
  }

  lemma {:induction false} ParseHexZeros(k: nat)
    ensures ParseHex(Zeros(k)) == 0
  {
    if k > 0 {
      assert Zeros(k)[..k - 1] == Zeros(k - 1);
      ParseHexZeros(k - 1);
    }
  }

  /** Leading zeros do not change the value of a hexadecimal string. */
  lemma {:induction false} ParseHexLeadingZeros(k: nat, s: string)
    requires forall i :: 0 <= i < |s| ==> IsHexDigit(s[i])
    ensures ParseHex(Zeros(k) + s) == ParseHex(s)
    decreases |s|
  {
    if s == [] {
      assert Zeros(k) + s == Zeros(k);
      ParseHexZeros(k);
    } else {
      var t := Zeros(k) + s;
      assert t[..|t| - 1] == Zeros(k) + s[..|s| - 1];
      ParseHexLeadingZeros(k, s[..|s| - 1]);
    }
  }

  /** Below 16^k, the hexadecimal digits of n take at most k characters. */
  lemma {:induction false} HexDigitsShort(n: nat, k: nat, bound: nat)
    requires k >= 1 && bound == Pow16(k) && n < bound
    ensures |HexDigits(n)| <= k
    decreases k
  {
    if n >= 16 {
      assert k >= 2;
      assert n / 16 < Pow16(k - 1);
      HexDigitsShort(n / 16, k - 1, Pow16(k - 1));
    }
  }

  function Pow16(k: nat): (p: nat)
    ensures p >= 1
  {
    if k == 0 then 1 else 16 * Pow16(k - 1)
  }

  /** The printed address is upper-case hex, at least four digits long (exactly
      four below 0x10000), padded only as far as four digits, and reads back as
      the number it was printed from. */
  lemma HexAddressRoundTrip(n: nat)
    ensures var h := HexAddress(n);
      && |h| >= 4
      && (forall i :: 0 <= i < |h| ==> IsHexDigit(h[i]))
      && (|h| > 4 ==> h[0] != '0')
      && (n < 0x10000 ==> |h| == 4)
      && ParseHex(h) == n
  {
    var d := HexDigits(n);
    HexDigitsRoundTrip(n);
    if |d| < 4 {
      ParseHexLeadingZeros(4 - |d|, d);
    }
    if n < 0x10000 {
      assert Pow16(4) == 0x10000;
      HexDigitsShort(n, 4, Pow16(4));
    }
  }

  // ---------------------------------------------------------------------------
  // Names
  // ---------------------------------------------------------------------------

  function UpperChar(c: char): char
  {
    if 'a' <= c <= 'z' then (c as int - 'a' as int + 'A' as int) as char else c
  }

  /** `str.upper()` restricted to ASCII: lower-case letters become capitals,
      every other character is kept. */
  function Upper(s: string): (r: string)
    ensures |r| == |s|
  {
    if s == [] then [] else [UpperChar(s[0])] + Upper(s[1..])
  }

  /** Upper-casing works character by character and leaves no lower-case
      letter behind. */
  lemma {:induction false} UpperChars(s: string)
    ensures forall i :: 0 <= i < |s| ==> Upper(s)[i] == UpperChar(s[i])
    ensures forall i :: 0 <= i < |s| ==> !('a' <= Upper(s)[i] <= 'z')
  {
    if s != [] {
      UpperChars(s[1..]);
      assert forall i :: 1 <= i < |s| ==> Upper(s)[i] == Upper(s[1..])[i - 1];
    }
  }

  lemma UpperIdempotent(s: string)
    ensures Upper(Upper(s)) == Upper(s)
  {
    UpperChars(s);
    UpperChars(Upper(s));
  }

  /** `s.split("_")[0]`: the text before the first underscore, or all of s when
      it has none. */
  function FirstToken(s: string): (t: string)
    ensures |t| <= |s|
  {
    if s == [] || s[0] == '_' then [] else [s[0]] + FirstToken(s[1..])
  }

  /** The first token is a prefix without underscores that runs up to the
      first underscore or to the end. */
  lemma {:induction false} FirstTokenPrefix(s: string)
    ensures var t := FirstToken(s);
      && t == s[..|t|]
      && (forall i :: 0 <= i < |t| ==> t[i] != '_')
      && (|t| == |s| || s[|t|] == '_')
  {
    if s != [] && s[0] != '_' {
      FirstTokenPrefix(s[1..]);
      var t := FirstToken(s[1..]);
      assert FirstToken(s) == [s[0]] + t;
      assert s[..|t| + 1] == [s[0]] + s[1..][..|t|];
    }
  }

  // ---------------------------------------------------------------------------
  // The order Python's `sorted()` puts strings in
  // ---------------------------------------------------------------------------

  /** Lexicographic order by code point: a comes before b when it is a proper
      prefix of b or has the smaller character at the first difference. */
  predicate Below(a: string, b: string)
  {
    |b| > 0 && (|a| == 0 || a[0] < b[0] || (a[0] == b[0] && Below(a[1..], b[1..])))
  }

  lemma {:induction false} BelowIrreflexive(a: string)
    ensures !Below(a, a)
    decreases |a|
  {
    if |a| > 0 {
      BelowIrreflexive(a[1..]);
    }
  }

  lemma {:induction false} BelowTransitive(a: string, b: string, c: string)
    requires Below(a, b) && Below(b, c)
    ensures Below(a, c)
    decreases |a|
  {
    if |a| > 0 && a[0] == b[0] && b[0] == c[0] {
      BelowTransitive(a[1..], b[1..], c[1..]);
    }
  }

  lemma {:induction false} BelowTotal(a: string, b: string)
    ensures a == b || Below(a, b) || Below(b, a)
    decreases |a|
  {
    if |a| > 0 && |b| > 0 && a[0] == b[0] {
      BelowTotal(a[1..], b[1..]);
      if a[1..] == b[1..] {
        assert a == [a[0]] + a[1..] && b == [b[0]] + b[1..];
      }
    }
  }
}
