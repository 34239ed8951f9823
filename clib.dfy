/**
 * The C and C++ library behaviours the core relies on, written out:
 * the C-string view of a buffer (strlen, strcmp, std::string from char*),
 * atoi, printf's "%06x", the unsigned integer conversions and the
 * ordering of std::string keys in a std::map.
 */
module CLib {
  const U8_MOD: int := 0x100
  const U32_MOD: int := 0x1_0000_0000
  const U64_MOD: int := 0x1_0000_0000_0000_0000

  /** Conversion to uint64_t: reduction modulo 2^64. */
  function ToU64(x: int): (r: int)
    ensures 0 <= r < U64_MOD
    ensures 0 <= x < U64_MOD ==> r == x
    ensures -U64_MOD <= x < 0 ==> r == x + U64_MOD
  {
    x % U64_MOD
  }

  /** Conversion to unsigned int, as printf's %x reads an int argument: reduction modulo 2^32. */
  function ToU32(x: int): (r: int)
    ensures 0 <= r < U32_MOD
    ensures 0 <= x < U32_MOD ==> r == x
    ensures -U32_MOD <= x < 0 ==> r == x + U32_MOD
  {
    x % U32_MOD
  }

  /** Conversion to uint8_t: reduction modulo 2^8. */
  function ToU8(x: int): (r: int)
    ensures 0 <= r < U8_MOD
    ensures 0 <= x < U8_MOD ==> r == x
  {
    x % U8_MOD
  }

  // ---------------------------------------------------------------- C strings

  predicate NoNul(s: string)
  {
    forall i | 0 <= i < |s| :: s[i] != '\0'
  }

  /** The characters a C function sees through `char*`: everything before the first NUL. */
  function CStr(s: string): (r: string)
    ensures NoNul(r)
    ensures |r| <= |s| && r == s[..|r|]
    ensures |r| < |s| ==> s[|r|] == '\0'
  {
    if s == [] || s[0] == '\0' then [] else [s[0]] + CStr(s[1..])
  }

  lemma {:induction false} CStrOfNoNul(s: string)
    requires NoNul(s)
    ensures CStr(s) == s
  {
    if s != [] {
      CStrOfNoNul(s[1..]);
    }
  }

  // ---------------------------------------------------------------- atoi

  predicate IsDigit(c: char) { '0' <= c <= '9' }

  predicate IsCSpace(c: char) { c == ' ' || c == '\t' || c == '\n' || c == '\U{0B}' || c == '\U{0C}' || c == '\r' }

  function SkipSpace(s: string): (r: string)
    ensures |r| <= |s| && r == s[|s| - |r|..]
    ensures r == [] || !IsCSpace(r[0])
  {
    if s != [] && IsCSpace(s[0]) then SkipSpace(s[1..]) else s
  }

  /** The longest prefix of `s` made of decimal digits. */
  function LeadingDigits(s: string): (r: string)
    ensures |r| <= |s| && r == s[..|r|]
    ensures forall i | 0 <= i < |r| :: IsDigit(r[i])
    ensures |r| < |s| ==> !IsDigit(s[|r|])
  {
    if s != [] && IsDigit(s[0]) then [s[0]] + LeadingDigits(s[1..]) else []
  }

  /** The value of a string of decimal digits. */
  function DecimalValue(ds: string): (r: int)
    requires forall i | 0 <= i < |ds| :: IsDigit(ds[i])
    ensures r >= 0
  {
    if ds == [] then 0
    else
      assert IsDigit(ds[|ds| - 1]);
      DecimalValue(ds[..|ds| - 1]) * 10 + (ds[|ds| - 1] as int - '0' as int)
  }

  /**
   * C's atoi: leading white space, an optional sign, then the longest run of
   * digits; 0 when there is none. (A value outside `int` is undefined
   * behaviour in C; here the mathematical value is returned.)
   */
  function Atoi(s: string): int
  {
    var t := SkipSpace(s);
    if t != [] && t[0] == '-' then -DecimalValue(LeadingDigits(t[1..]))
    else if t != [] && t[0] == '+' then DecimalValue(LeadingDigits(t[1..]))
    else DecimalValue(LeadingDigits(t))
  }

  /** printf's "%d" of a natural number: its decimal digits, without leading zeros. */
  function DecimalString(n: nat): (r: string)
    ensures |r| >= 1
    ensures forall i | 0 <= i < |r| :: IsDigit(r[i])
  {
    if n < 10 then [('0' as int + n) as char]
    else DecimalString(n / 10) + [('0' as int + n % 10) as char]
  }

  lemma {:induction false} DecimalValueOfString(n: nat)
    ensures DecimalValue(DecimalString(n)) == n
  {
    if n >= 10 {
      var ds := DecimalString(n);
      assert ds[..|ds| - 1] == DecimalString(n / 10);
      DecimalValueOfString(n / 10);
    }
  }

  lemma {:induction false} LeadingDigitsOfDigits(s: string)
    requires forall i | 0 <= i < |s| :: IsDigit(s[i])
    ensures LeadingDigits(s) == s
  {
    if s != [] {
      LeadingDigitsOfDigits(s[1..]);
    }
  }

  /** atoi inverts "%d": it reads back every value printf writes, negative ones included. */
  lemma AtoiOfDecimalString(n: int)
    ensures n >= 0 ==> Atoi(DecimalString(n)) == n
    ensures n < 0 ==> Atoi("-" + DecimalString(-n)) == n
  {
    if n >= 0 {
      var s := DecimalString(n);
      assert SkipSpace(s) == s;
      LeadingDigitsOfDigits(s);
      DecimalValueOfString(n);
    } else {
      var s := "-" + DecimalString(-n);
      assert SkipSpace(s) == s;
      assert s[1..] == DecimalString(-n);
      LeadingDigitsOfDigits(DecimalString(-n));
      DecimalValueOfString(-n);
    }
  }

  // ---------------------------------------------------------------- printf "%06x"

  predicate IsLowerHex(c: char) { ('0' <= c <= '9') || ('a' <= c <= 'f') }

  function HexChar(d: nat): (c: char)
    requires d < 16
    ensures IsLowerHex(c)
  {
    if d < 10 then ('0' as int + d) as char else ('a' as int + d - 10) as char
  }

  function HexDigitValue(c: char): nat
    requires IsLowerHex(c)
  {
    if c <= '9' then c as int - '0' as int else c as int - 'a' as int + 10
  }

  /** The lower-case hexadecimal digits of `n`, without leading zeros. */
  function Hex(n: nat): (r: string)
    ensures |r| >= 1
    ensures forall i | 0 <= i < |r| :: IsLowerHex(r[i])
  {
    if n < 16 then [HexChar(n)] else Hex(n / 16) + [HexChar(n % 16)]
  }

  function Zeros(k: nat): (r: string)
    ensures |r| == k && forall i | 0 <= i < k :: r[i] == '0'
  {
    if k == 0 then [] else Zeros(k - 1) + ['0']
  }

  /** printf's "%0<w>x": the hexadecimal digits, zero-padded on the left to width `w`. */
  function HexPadded(n: nat, w: nat): (r: string)
    ensures |r| >= w
    ensures forall i | 0 <= i < |r| :: IsLowerHex(r[i])
  {
    var h := Hex(n);
    if |h| < w then Zeros(w - |h|) + h else h
  }

  /** The value of a string of lower-case hexadecimal digits; the partner of HexPadded. */
  function HexValue(s: string): nat
    requires forall i | 0 <= i < |s| :: IsLowerHex(s[i])
  {
    if s == [] then 0 else HexValue(s[..|s| - 1]) * 16 + HexDigitValue(s[|s| - 1])
  }

  lemma {:induction false} HexValueOfHex(n: nat)
    ensures HexValue(Hex(n)) == n
  {
    if n >= 16 {
      var h := Hex(n);
      assert h[..|h| - 1] == Hex(n / 16);
      HexValueOfHex(n / 16);
    }
  }

  lemma {:induction false} HexValueIgnoresLeadingZeros(k: nat, s: string)
    requires forall i | 0 <= i < |s| :: IsLowerHex(s[i])
    ensures HexValue(Zeros(k) + s) == HexValue(s)
  {
    if s == [] {
      ZerosValue(k);
      assert Zeros(k) + s == Zeros(k);
    } else {
      var t := s[..|s| - 1];
      assert (Zeros(k) + s)[..|Zeros(k) + s| - 1] == Zeros(k) + t;
      HexValueIgnoresLeadingZeros(k, t);
    }
  }

  lemma {:induction false} ZerosValue(k: nat)
    ensures HexValue(Zeros(k)) == 0
  {
    if k > 0 {
      assert Zeros(k)[..k - 1] == Zeros(k - 1);
      ZerosValue(k - 1);
    }
  }

  /** Reading the padded rendering back gives the number: "%06x" loses nothing. */
  lemma HexPaddedRoundTrip(n: nat, w: nat)
    ensures HexValue(HexPadded(n, w)) == n
  {
    HexValueOfHex(n);
    var h := Hex(n);
    if |h| < w {
      HexValueIgnoresLeadingZeros(w - |h|, h);
    }
  }

  // ---------------------------------------------------------------- std::string order

  /** std::string's operator<: lexicographic order on characters, a proper prefix first. */
  predicate LexLess(a: string, b: string)
  {
    if a == [] then b != []
    else b != [] && (a[0] < b[0] || (a[0] == b[0] && LexLess(a[1..], b[1..])))
  }

  lemma {:induction false} LexLessIrreflexive(a: string)
    ensures !LexLess(a, a)
  {
    if a != [] {
      LexLessIrreflexive(a[1..]);
    }
  }

  lemma {:induction false} LexLessTransitive(a: string, b: string, c: string)
    requires LexLess(a, b) && LexLess(b, c)
    ensures LexLess(a, c)
  {
    if a != [] && a[0] == b[0] && b[0] == c[0] {
      LexLessTransitive(a[1..], b[1..], c[1..]);
    }
  }

  lemma {:induction false} LexLessTotal(a: string, b: string)
    requires a != b
    ensures LexLess(a, b) || LexLess(b, a)
  {
    if a != [] && b != [] && a[0] == b[0] {
      assert a == [a[0]] + a[1..] && b == [b[0]] + b[1..];
      LexLessTotal(a[1..], b[1..]);
    }
  }

  /** Every non-empty finite set of keys has a least one: the first key a std::map visits. */
  lemma {:induction false} LeastKeyExists(keys: set<string>)
    requires keys != {}
    ensures exists k :: k in keys && forall k' | k' in keys && k' != k :: LexLess(k, k')
    decreases |keys|
  {
    var x :| x in keys;
    var rest := keys - {x};
    if rest == {} {
      assert keys == {x};
      assert forall k' | k' in keys && k' != x :: LexLess(x, k');
    } else {
      LeastKeyExists(rest);
      var m :| m in rest && forall k' | k' in rest && k' != m :: LexLess(m, k');
      LexLessTotal(x, m);
      if LexLess(x, m) {
        forall k' | k' in keys && k' != x
          ensures LexLess(x, k')
        {
          if k' != m {
            LexLessTransitive(x, m, k');
          }
        }
      } else {
        assert forall k' | k' in keys && k' != m :: LexLess(m, k');
      }
    }
  }
}
