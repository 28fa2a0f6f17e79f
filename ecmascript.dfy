/** The JavaScript built-ins that the dashboard's filters rely on, after
    ECMA-262: the global `parseInt` with no radix argument (section 19.2.5),
    `Number.prototype.toString` on integers, `String.prototype.toLowerCase`
    and `String.prototype.includes`. A JavaScript number that `parseInt`
    may return is `Some(n)`; `NaN` is `None`. */
module EcmaScript {
  import opened Wrappers

  // ---------------------------------------------------------------- parseInt

  /** A StrWhiteSpaceChar of ECMA-262: WhiteSpace (TAB, VT, FF, ZWNBSP and
      every space separator of Unicode category Zs) or a LineTerminator. */
  predicate IsStrWhiteSpace(c: char) {
    || c == '\t' || c == '\U{000B}' || c == '\U{000C}' || c == '\U{FEFF}'
    || c == ' ' || c == '\U{00A0}' || c == '\U{1680}' || '\U{2000}' <= c <= '\U{200A}'
    || c == '\U{202F}' || c == '\U{205F}' || c == '\U{3000}'
    || c == '\n' || c == '\r' || c == '\U{2028}' || c == '\U{2029}'
  }

  /** The string with its leading white space removed. */
  function TrimStart(s: string): (r: string)
    ensures |r| <= |s| && r == s[|s| - |r|..]
    ensures forall i :: 0 <= i < |s| - |r| ==> IsStrWhiteSpace(s[i])
    ensures r == [] || !IsStrWhiteSpace(r[0])
  {
    if s != [] && IsStrWhiteSpace(s[0]) then TrimStart(s[1..]) else s
  }

  /** The value of `c` as a digit of radix 36 (`0`-`9`, then `a`-`z` or
      `A`-`Z`); 36 for a character that is no digit in any radix. */
  function DigitValue(c: char): (d: nat)
    ensures d <= 36
  {
    if '0' <= c <= '9' then c as int - '0' as int
    else if 'a' <= c <= 'z' then c as int - 'a' as int + 10
    else if 'A' <= c <= 'Z' then c as int - 'A' as int + 10
    else 36
  }

  /** The longest prefix of `s` made of digits of the given radix. */
  function DigitPrefix(s: string, radix: nat): (z: string)
    ensures z <= s
    ensures forall i :: 0 <= i < |z| ==> DigitValue(z[i]) < radix
    ensures |z| < |s| ==> DigitValue(s[|z|]) >= radix
  {
    if s != [] && DigitValue(s[0]) < radix then [s[0]] + DigitPrefix(s[1..], radix) else []
  }

  /** The mathematical value of a string of digits, most significant first. */
  function DigitsValue(z: string, radix: nat): nat {
    if z == [] then 0
    else DigitsValue(z[..|z| - 1], radix) * radix + DigitValue(z[|z| - 1])
  }

  /** The value of a numeral after its sign: the hexadecimal prefix
      `0x`/`0X` selects radix 16, otherwise radix 10; then the longest run of
      digits of that radix is read, and no digit at all is `NaN`. */
  function ParseUnsigned(u: string): Option<nat>
  {
    var hex := |u| >= 2 && u[0] == '0' && (u[1] == 'x' || u[1] == 'X');
    var radix := if hex then 16 else 10;
    var z := DigitPrefix(if hex then u[2..] else u, radix);
    if z == [] then None else Some(DigitsValue(z, radix))
  }

  /** `parseInt` on a string whose leading white space is already gone:
      one optional sign, then the unsigned numeral. */
  function ParseTrimmed(t: string): Option<int> {
    var negative := t != [] && t[0] == '-';
    var u := if t != [] && (t[0] == '-' || t[0] == '+') then t[1..] else t;
    match ParseUnsigned(u)
    case None => None
    case Some(v) => if negative then Some(-(v as int)) else Some(v as int)
  }

  /** `parseInt(s)`: skip leading white space, read one optional sign, read
      the hexadecimal prefix if present, then the longest run of digits; no
      digit at all gives `NaN`. A negative zero is the integer 0 here, which
      a comparison cannot tell apart. */
  function ParseInt(s: string): Option<int> {
    ParseTrimmed(TrimStart(s))
  }

  /** JavaScript `x >= y` for an integer `x` and a `parseInt` result `y`:
      false whenever `y` is `NaN`. */
  predicate AtLeast(x: int, y: Option<int>) {
    y.Some? && x >= y.value
  }

  /** JavaScript `x <= y`, false whenever `y` is `NaN`. */
  predicate AtMost(x: int, y: Option<int>) {
    y.Some? && x <= y.value
  }

  // ------------------------------------------------- Number.prototype.toString

  function DigitChar(d: nat): (c: char)
    requires d < 10
    ensures '0' <= c <= '9' && DigitValue(c) == d
  {
    ('0' as int + d) as char
  }

  /** The shortest decimal numeral of `n`. */
  function NatToString(n: nat): (s: string)
    ensures |s| >= 1
    ensures forall i :: 0 <= i < |s| ==> '0' <= s[i] <= '9'
    ensures s[0] == '0' <==> n == 0
    ensures n == 0 ==> |s| == 1
    decreases n
  {
    if n < 10 then [DigitChar(n)] else NatToString(n / 10) + [DigitChar(n % 10)]
  }

  /** `n.toString()` for an integer `n` with |n| < 10^21; from 10^21 up
      JavaScript switches to exponent notation, which this does not model. */
  function IntToString(n: int): string {
    if n < 0 then "-" + NatToString(-n) else NatToString(n)
  }

  lemma {:induction false} DigitsValueOfNatToString(n: nat)
    ensures DigitsValue(NatToString(n), 10) == n
    decreases n
  {
    var s := NatToString(n);
    if n >= 10 {
      DigitsValueOfNatToString(n / 10);
      assert s[..|s| - 1] == NatToString(n / 10);
    }
  }

  /** The digit run that `parseInt` reads out of a numeral followed by a
      non-digit is the numeral itself. */
  lemma {:induction false} DigitPrefixOfNumeral(d: string, rest: string, radix: nat)
    requires forall i :: 0 <= i < |d| ==> DigitValue(d[i]) < radix
    requires rest == [] || DigitValue(rest[0]) >= radix
    ensures DigitPrefix(d + rest, radix) == d
  {
    if d == [] {
      assert d + rest == rest;
    } else {
      assert (d + rest)[1..] == d[1..] + rest;
      DigitPrefixOfNumeral(d[1..], rest, radix);
    }
  }

  /** `parseInt(String(n) + rest) == n` when `rest` does not continue the
      numeral: it is empty or starts with a character that is no decimal
      digit, and, after the numeral `0`, not with `x` or `X` (which would
      make `0x` a hexadecimal prefix). This covers `num.toString()` for the
      bedroom and bathroom chips and values such as `"2.5"` or `"1e3"` from
      a number input. */
  lemma ParseIntOfNumeral(n: int, rest: string)
    requires rest == [] || DigitValue(rest[0]) >= 10
    requires n == 0 ==> rest == [] || (rest[0] != 'x' && rest[0] != 'X')
    ensures ParseInt(IntToString(n) + rest) == Some(n)
  {
    if n < 0 {
      ParseIntOfNegativeNumeral(-n, rest, IntToString(n) + rest);
    } else {
      assert IntToString(n) == NatToString(n);
      ParseIntOfUnsignedNumeral(n, rest);
    }
  }

  /** The negative case: `w` is a minus sign, the numeral of `m`, then `rest`. */
  lemma ParseIntOfNegativeNumeral(m: nat, rest: string, w: string)
    requires m > 0
    requires rest == [] || DigitValue(rest[0]) >= 10
    requires w == IntToString(-(m as int)) + rest
    ensures ParseInt(w) == Some(-(m as int))
  {
    var u := NatToString(m) + rest;
    assert IntToString(-(m as int)) == "-" + NatToString(m);
    assert w == "-" + u;
    ParseUnsignedOfNumeral(m, rest);
    ParseIntNegative(u, m);
    assert ParseInt(w) == ParseInt("-" + u);
  }

  /** `parseInt` reads a leading minus sign as the negation of the numeral
      that follows it. */
  lemma ParseIntNegative(u: string, m: nat)
    requires ParseUnsigned(u) == Some(m)
    ensures ParseInt("-" + u) == Some(-(m as int))
  {
    var t := "-" + u;
    TrimStartKeeps(t);
    assert ParseInt(t) == ParseTrimmed(t);
    ParseTrimmedNegative(u);
  }

  lemma ParseIntOfUnsignedNumeral(m: nat, rest: string)
    requires rest == [] || DigitValue(rest[0]) >= 10
    requires m == 0 ==> rest == [] || (rest[0] != 'x' && rest[0] != 'X')
    ensures ParseInt(NatToString(m) + rest) == Some(m as int)
  {
    ParseUnsignedOfNumeral(m, rest);
    TrimStartKeeps(NatToString(m) + rest);
    ParseTrimmedUnsigned(NatToString(m) + rest);
  }

  lemma TrimStartKeeps(t: string)
    requires t != [] && (t[0] == '-' || '0' <= t[0] <= '9')
    ensures TrimStart(t) == t
  {
  }

  /** A leading minus sign negates the numeral that follows it. */
  lemma ParseTrimmedNegative(u: string)
    requires ParseUnsigned(u).Some?
    ensures ParseTrimmed("-" + u) == Some(-(ParseUnsigned(u).value as int))
  {
    assert ("-" + u)[1..] == u;
  }

  /** A numeral without a sign is read as it stands. */
  lemma ParseTrimmedUnsigned(u: string)
    requires u != [] && '0' <= u[0] <= '9'
    requires ParseUnsigned(u).Some?
    ensures ParseTrimmed(u) == Some(ParseUnsigned(u).value as int)
  {
  }

  lemma ParseUnsignedOfNumeral(m: nat, rest: string)
    requires rest == [] || DigitValue(rest[0]) >= 10
    requires m == 0 ==> rest == [] || (rest[0] != 'x' && rest[0] != 'X')
    ensures ParseUnsigned(NatToString(m) + rest) == Some(m)
  {
    var d := NatToString(m);
    var u := d + rest;
    assert u[0] == d[0];
    assert |u| >= 2 && u[0] == '0' ==> |d| == 1 && u[1] == rest[0];
    DigitPrefixOfNumeral(d, rest, 10);
    DigitsValueOfNatToString(m);
  }

  /** `parseInt(String(n)) == n`. */
  lemma ParseIntRoundTrip(n: int)
    ensures ParseInt(IntToString(n)) == Some(n)
  {
    ParseIntOfNumeral(n, "");
    assert IntToString(n) + "" == IntToString(n);
  }

  lemma {:induction false} TrimStartSkipsWhiteSpace(ws: string, s: string)
    requires forall i :: 0 <= i < |ws| ==> IsStrWhiteSpace(ws[i])
    ensures TrimStart(ws + s) == TrimStart(s)
  {
    if ws != [] {
      assert (ws + s)[1..] == ws[1..] + s;
      TrimStartSkipsWhiteSpace(ws[1..], s);
    } else {
      assert ws + s == s;
    }
  }

  /** Leading white space never changes what `parseInt` reads. */
  lemma ParseIntSkipsWhiteSpace(ws: string, s: string)
    requires forall i :: 0 <= i < |ws| ==> IsStrWhiteSpace(ws[i])
    ensures ParseInt(ws + s) == ParseInt(s)
  {
    TrimStartSkipsWhiteSpace(ws, s);
  }

  /** A string with no digit where the numeral must begin is `NaN`, the
      empty string included. */
  lemma ParseIntWithoutDigits(s: string)
    requires var t := TrimStart(s);
             t == [] || (DigitValue(t[0]) >= 10 && t[0] != '-' && t[0] != '+')
    ensures ParseInt(s) == None
  {
    var t := TrimStart(s);
    assert ParseInt(s) == ParseTrimmed(t);
    if t != [] {
      assert DigitPrefix(t, 10) == [];
    }
    assert ParseUnsigned(t) == None;
  }

  // ------------------------------------------------- String.prototype.toLowerCase

  /** Lower case of one character: the ASCII letters `A`-`Z` and the Latin-1
      capitals U+00C0..U+00DE (all but the sign U+00D7) map to the character
      0x20 above them; every other character is left unchanged. */
  function LowerChar(c: char): char {
    if 'A' <= c <= 'Z' || ('\U{00C0}' <= c <= '\U{00DE}' && c != '\U{00D7}')
    then (c as int + 0x20) as char
    else c
  }

  function ToLowerCase(s: string): (r: string)
    ensures |r| == |s|
  {
    seq(|s|, i requires 0 <= i < |s| => LowerChar(s[i]))
  }

  /** Lower-casing a lower-cased string changes nothing. */
  lemma ToLowerCaseIdempotent(s: string)
    ensures ToLowerCase(ToLowerCase(s)) == ToLowerCase(s)
  {
    var l := ToLowerCase(s);
    forall i | 0 <= i < |s|
      ensures ToLowerCase(l)[i] == l[i]
    {
      assert LowerChar(LowerChar(s[i])) == LowerChar(s[i]);
    }
  }

  /** The only characters that lower-case to `c` are `c` itself and, when
      `c` is a lower-case letter of the mapped ranges, its capital. */
  lemma LowerCharPreimage(x: char, c: char)
    requires LowerChar(x) == c
    ensures x == c || (x as int + 0x20 == c as int)
  {
  }

  // ------------------------------------------------- String.prototype.includes

  /** `needle` stands in `hay` at position `k`. */
  predicate OccursAt(hay: string, needle: string, k: int) {
    0 <= k && k + |needle| <= |hay| && hay[k..k + |needle|] == needle
  }

  /** `hay.includes(needle)`, scanning from the left. */
  predicate Includes(hay: string, needle: string)
    decreases |hay|
  {
    (|needle| <= |hay| && hay[..|needle|] == needle) || (hay != [] && Includes(hay[1..], needle))
  }

  /** The scan finds `needle` exactly when it occurs at some position. */
  lemma {:induction false} IncludesIffOccurs(hay: string, needle: string)
    ensures Includes(hay, needle) <==> exists k :: OccursAt(hay, needle, k)
    decreases |hay|
  {
    if hay != [] {
      IncludesIffOccurs(hay[1..], needle);
      if Includes(hay[1..], needle) {
        var k :| OccursAt(hay[1..], needle, k);
        assert hay[k + 1..k + 1 + |needle|] == hay[1..][k..k + |needle|];
        assert OccursAt(hay, needle, k + 1);
      }
      if k :| OccursAt(hay, needle, k) && k > 0 {
        assert hay[1..][k - 1..k - 1 + |needle|] == hay[k..k + |needle|];
        assert OccursAt(hay[1..], needle, k - 1);
      }
    }
    if OccursAt(hay, needle, 0) {
      assert hay[..|needle|] == hay[0..|needle|];
    }
  }

  /** A needle holding a character that the haystack lacks is not included. */
  lemma MissingCharacterExcludes(hay: string, needle: string, c: char)
    requires c in needle && c !in hay
    ensures !Includes(hay, needle)
  {
    IncludesIffOccurs(hay, needle);
    forall k | 0 <= k && k + |needle| <= |hay|
      ensures !OccursAt(hay, needle, k)
    {
      var j :| 0 <= j < |needle| && needle[j] == c;
      assert hay[k..k + |needle|][j] == hay[k + j];
    }
  }
}
