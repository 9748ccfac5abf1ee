/** The string primitives of JavaScript that the modelled code relies on:
    `trim`, `toUpperCase`, `startsWith`, `includes`, `String(n)` for integers
    and `parseInt`. */
module Text {
  import opened Wrappers

  predicate StartsWith(s: string, prefix: string) {
    |prefix| <= |s| && s[..|prefix|] == prefix
  }

  predicate OccursAt(s: string, t: string, i: int) {
    0 <= i && i + |t| <= |s| && s[i..i + |t|] == t
  }

  /** `s.includes(t)` */
  predicate Contains(s: string, t: string) {
    exists i | 0 <= i <= |s| - |t| :: OccursAt(s, t, i)
  }

  /** The characters that `String.prototype.trim` and `parseInt` skip:
      WhiteSpace (tab, vertical tab, form feed, space, no-break space, the
      byte order mark and the Unicode space separators) and LineTerminator. */
  predicate IsWhitespace(c: char) {
    var n := c as int;
    n == 0x09 || n == 0x0A || n == 0x0B || n == 0x0C || n == 0x0D || n == 0x20
    || n == 0xA0 || n == 0x1680 || (0x2000 <= n <= 0x200A) || n == 0x2028
    || n == 0x2029 || n == 0x202F || n == 0x205F || n == 0x3000 || n == 0xFEFF
  }

  /** `s.trimStart()`: drops the leading whitespace and nothing else. */
  function TrimStart(s: string): (r: string)
    ensures |r| <= |s| && r == s[|s| - |r|..]
    ensures forall k :: 0 <= k < |s| - |r| ==> IsWhitespace(s[k])
    ensures r == [] || !IsWhitespace(r[0])
  {
    if |s| > 0 && IsWhitespace(s[0]) then TrimStart(s[1..]) else s
  }

  /** `s.trimEnd()`: drops the trailing whitespace and nothing else. */
  function TrimEnd(s: string): (r: string)
    ensures |r| <= |s| && r == s[..|r|]
    ensures forall k :: |r| <= k < |s| ==> IsWhitespace(s[k])
    ensures r == [] || !IsWhitespace(r[|r| - 1])
  {
    if |s| > 0 && IsWhitespace(s[|s| - 1]) then TrimEnd(s[..|s| - 1]) else s
  }

  /** `s.trim()` */
  function Trim(s: string): string {
    TrimEnd(TrimStart(s))
  }

  /** A string with no whitespace at either end is its own trim. */
  lemma TrimOfTrimmed(s: string)
    requires s == [] || (!IsWhitespace(s[0]) && !IsWhitespace(s[|s| - 1]))
    ensures Trim(s) == s
  {
  }

  lemma TrimIdempotent(s: string)
    ensures Trim(Trim(s)) == Trim(s)
  {
    var t := Trim(s);
    var u := TrimStart(s);
    assert t == TrimEnd(u);
    if t != [] {
      assert t[0] == u[0];
      TrimOfTrimmed(t);
    }
  }

  /** `toUpperCase` on one character; only the ASCII letters are mapped. */
  function UpperChar(c: char): char {
    if 'a' <= c <= 'z' then (c as int - 32) as char else c
  }

  function ToUpper(s: string): (r: string)
    ensures |r| == |s|
    ensures forall i :: 0 <= i < |s| ==> r[i] == UpperChar(s[i])
  {
    seq(|s|, i requires 0 <= i < |s| => UpperChar(s[i]))
  }

  predicate IsDigit(c: char, radix: int) {
    ('0' <= c <= '9' && (c as int - '0' as int) < radix)
    || (radix == 16 && (('a' <= c <= 'f') || ('A' <= c <= 'F')))
  }

  function DigitValue(c: char): nat {
    if '0' <= c <= '9' then c as int - '0' as int
    else if 'a' <= c <= 'f' then c as int - 'a' as int + 10
    else if 'A' <= c <= 'F' then c as int - 'A' as int + 10
    else 0
  }

  /** The longest prefix of `s` made of digits of the given radix. */
  function DigitRun(s: string, radix: int): (r: string)
    ensures |r| <= |s| && r == s[..|r|]
    ensures forall k :: 0 <= k < |r| ==> IsDigit(r[k], radix)
    ensures |r| < |s| ==> !IsDigit(s[|r|], radix)
  {
    if |s| > 0 && IsDigit(s[0], radix) then [s[0]] + DigitRun(s[1..], radix) else []
  }

  /** The value of a digit string, most significant digit first. */
  function DigitsValue(ds: string, radix: nat): nat {
    if ds == [] then 0 else DigitsValue(ds[..|ds| - 1], radix) * radix + DigitValue(ds[|ds| - 1])
  }

  /** `parseInt(s, 10)` when `autoHex` is false, `parseInt(s)` when it is
      true: skip leading whitespace, take one optional sign, then (only
      without an explicit radix) a `0x`/`0X` prefix selects radix 16; the
      longest run of digits is converted and the rest of the string is
      ignored. `None` stands for `NaN`, which is the result when no digit
      follows. */
  function ParseInt(s: string, autoHex: bool): Option<int> {
    ParseSigned(TrimStart(s), autoHex)
  }

  function ParseSigned(t: string, autoHex: bool): Option<int> {
    if |t| > 0 && t[0] == '-' then
      match ParseUnsigned(t[1..], autoHex)
      case Some(v) => Some(-v)
      case None => None
    else if |t| > 0 && t[0] == '+' then ParseUnsigned(t[1..], autoHex)
    else ParseUnsigned(t, autoHex)
  }

  predicate HasHexPrefix(u: string) {
    |u| >= 2 && u[0] == '0' && (u[1] == 'x' || u[1] == 'X')
  }

  function ParseUnsigned(u: string, autoHex: bool): Option<int> {
    if autoHex && HasHexPrefix(u) then ParseDigits(u[2..], 16) else ParseDigits(u, 10)
  }

  function ParseDigits(v: string, radix: nat): Option<int> {
    var ds := DigitRun(v, radix);
    if ds == [] then None else Some(DigitsValue(ds, radix))
  }

  function DigitChar(d: nat): char
    requires d < 10
  {
    ('0' as int + d) as char
  }

  /** Decimal form of a natural number, as `String(n)` writes it. */
  function NatToString(n: nat): (r: string)
    ensures |r| > 0
    ensures forall k :: 0 <= k < |r| ==> '0' <= r[k] <= '9'
    ensures n > 0 ==> r[0] != '0'
  {
    if n < 10 then [DigitChar(n)] else NatToString(n / 10) + [DigitChar(n % 10)]
  }

  /** `String(n)` for an integer `n`. */
  function IntToString(n: int): string {
    if n < 0 then "-" + NatToString(-n) else NatToString(n)
  }

  lemma {:induction false} NatToStringValue(n: nat)
    ensures DigitsValue(NatToString(n), 10) == n
  {
    var s := NatToString(n);
    if n >= 10 {
      NatToStringValue(n / 10);
      assert s[..|s| - 1] == NatToString(n / 10);
    }
  }

  lemma {:induction false} DigitRunAllDigits(ds: string, rest: string, radix: int)
    requires forall k :: 0 <= k < |ds| ==> IsDigit(ds[k], radix)
    requires rest == [] || !IsDigit(rest[0], radix)
    ensures DigitRun(ds + rest, radix) == ds
  {
    if ds != [] {
      assert (ds + rest)[0] == ds[0];
      assert (ds + rest)[1..] == ds[1..] + rest;
      DigitRunAllDigits(ds[1..], rest, radix);
    }
  }

  lemma {:induction false} ParseUnsignedOfDecimal(m: nat, rest: string, autoHex: bool)
    requires rest == [] || !('0' <= rest[0] <= '9')
    requires autoHex && rest != [] ==> rest[0] != 'x' && rest[0] != 'X'
    ensures ParseUnsigned(NatToString(m) + rest, autoHex) == Some(m)
  {
    var digits := NatToString(m);
    var u := digits + rest;
    assert !(autoHex && HasHexPrefix(u)) by {
      if HasHexPrefix(u) {
        assert digits[0] == '0';
        assert m == 0;
        assert u[1] == rest[0];
      }
    }
    DigitRunAllDigits(digits, rest, 10);
    NatToStringValue(m);
  }

  lemma {:induction false} ParseNegativeDecimal(m: nat, rest: string, autoHex: bool)
    requires rest == [] || !('0' <= rest[0] <= '9')
    requires autoHex && rest != [] ==> rest[0] != 'x' && rest[0] != 'X'
    ensures ParseSigned("-" + (NatToString(m) + rest), autoHex) == Some(-(m as int))
  {
    var u := NatToString(m) + rest;
    ParseUnsignedOfDecimal(m, rest, autoHex);
    assert ("-" + u)[1..] == u;
  }

  lemma {:induction false} ParseNonNegativeDecimal(m: nat, rest: string, autoHex: bool)
    requires rest == [] || !('0' <= rest[0] <= '9')
    requires autoHex && rest != [] ==> rest[0] != 'x' && rest[0] != 'X'
    ensures ParseSigned(NatToString(m) + rest, autoHex) == Some(m)
  {
    var u := NatToString(m) + rest;
    ParseUnsignedOfDecimal(m, rest, autoHex);
    assert u[0] == NatToString(m)[0];
  }

  lemma {:induction false} ParseSignedOfDecimal(n: int, rest: string, autoHex: bool)
    requires rest == [] || !('0' <= rest[0] <= '9')
    requires autoHex && rest != [] ==> rest[0] != 'x' && rest[0] != 'X'
    ensures ParseSigned(IntToString(n) + rest, autoHex) == Some(n)
  {
    if n < 0 {
      ParseNegativeDecimal(-n, rest, autoHex);
      NegativeForm(n, rest);
    } else {
      ParseNonNegativeDecimal(n, rest, autoHex);
    }
  }


  lemma NegativeForm(n: int, rest: string)
    requires n < 0
    ensures IntToString(n) + rest == "-" + (NatToString(-n) + rest)
  {
  }

  /** `parseInt` reads back what `String(n)` writes, whatever follows it as
      long as the next character is not a digit (nor, without an explicit
      radix, an `x` that would turn a leading `0` into a hex prefix). */
  lemma {:induction false} ParseIntOfDecimal(n: int, rest: string, autoHex: bool)
    requires rest == [] || !('0' <= rest[0] <= '9')
    requires autoHex && rest != [] ==> rest[0] != 'x' && rest[0] != 'X'
    ensures ParseInt(IntToString(n) + rest, autoHex) == Some(n)
  {
    var s := IntToString(n) + rest;
    assert s[0] == IntToString(n)[0];
    assert TrimStart(s) == s;
    ParseSignedOfDecimal(n, rest, autoHex);
  }




}
