/**
 * String helpers the JavaScript core relies on: `String.prototype.trim`,
 * `Array.prototype.join` and the decimal rendering of integers that
 * template literals and `String(n)` produce.
 */
module Text {

  /** The code points JavaScript's `trim` removes: WhiteSpace and LineTerminator. */
  predicate IsJsSpace(c: char) {
    || c == '\t' || c == '\n' || c == '\U{000B}' || c == '\U{000C}' || c == '\r'
    || c == ' ' || c == '\U{00A0}' || c == '\U{1680}'
    || ('\U{2000}' <= c <= '\U{200A}')
    || c == '\U{2028}' || c == '\U{2029}' || c == '\U{202F}' || c == '\U{205F}'
    || c == '\U{3000}' || c == '\U{FEFF}'
  }

  predicate AllSpace(s: string) {
    forall i :: 0 <= i < |s| ==> IsJsSpace(s[i])
  }

  /** Neither end of `s` is whitespace: `s` is its own trim. */
  predicate NoEdgeSpace(s: string) {
    s == [] || (!IsJsSpace(s[0]) && !IsJsSpace(s[|s| - 1]))
  }

  /** `r` is `s` with its leading and trailing whitespace cut off. */
  predicate IsTrimOf(r: string, s: string) {
    exists k :: 0 <= k <= |s| - |r| && s[k..k + |r|] == r
      && AllSpace(s[..k]) && AllSpace(s[k + |r|..]) && NoEdgeSpace(r)
  }

  function TrimStart(s: string): (r: string)
    ensures |r| <= |s| && r == s[|s| - |r|..]
    ensures r == [] || !IsJsSpace(r[0])
    ensures AllSpace(s[..|s| - |r|])
  {
    if s != [] && IsJsSpace(s[0]) then TrimStart(s[1..]) else s
  }

  function TrimEnd(s: string): (r: string)
    ensures |r| <= |s| && r == s[..|r|]
    ensures r == [] || !IsJsSpace(r[|r| - 1])
    ensures AllSpace(s[|r|..])
  {
    if s != [] && IsJsSpace(s[|s| - 1]) then TrimEnd(s[..|s| - 1]) else s
  }

  /** JavaScript's `s.trim()`. */
  function Trim(s: string): (r: string)
    ensures |r| <= |s| && NoEdgeSpace(r)
  {
    var a := TrimStart(s);
    var r := TrimEnd(a);
    assert NoEdgeSpace(r) by {
      if r != [] {
        assert r[0] == a[0];
      }
    }
    r
  }

  /** `Trim` cuts exactly the whitespace at both ends, and leaves nothing of a blank string. */
  lemma TrimSpec(s: string)
    ensures IsTrimOf(Trim(s), s)
    ensures Trim(s) == [] <==> AllSpace(s)
  {
    var a := TrimStart(s);
    var r := TrimEnd(a);
    var k := |s| - |a|;
    assert r == Trim(s);
    assert s[k..k + |r|] == r by {
      assert s[k..] == a;
      assert s[k..k + |r|] == a[..|r|];
    }
    assert s[k + |r|..] == a[|r|..];
    assert IsTrimOf(r, s);
    if r == [] {
      assert a == [];
      assert s[..k] == s;
    } else {
      assert s[k] == r[0];
    }
  }

  /** A trimmed, non-blank string: what the assignment route stores as a task. */
  predicate TrimmedNonEmpty(s: string) {
    s != [] && NoEdgeSpace(s)
  }

  /** A string with no whitespace at either end is its own trim. */
  lemma TrimOfTrimmed(s: string)
    requires NoEdgeSpace(s)
    ensures Trim(s) == s
  {
    assert TrimStart(s) == s;
    assert TrimEnd(s) == s;
  }

  /** Trimming twice is trimming once. */
  lemma TrimIdempotent(s: string)
    ensures Trim(Trim(s)) == Trim(s)
  {
    TrimOfTrimmed(Trim(s));
  }

  /** `parts.join(sep)`. */
  function Join(parts: seq<string>, sep: string): string
  {
    if parts == [] then ""
    else if |parts| == 1 then parts[0]
    else parts[0] + sep + Join(parts[1..], sep)
  }

  /** Joining non-empty parts gives the empty string exactly when there are no parts. */
  lemma JoinEmptyIff(parts: seq<string>, sep: string)
    requires forall i :: 0 <= i < |parts| ==> parts[i] != ""
    ensures Join(parts, sep) == "" <==> parts == []
  {
    if parts != [] {
      assert parts[0] != "";
      assert |Join(parts, sep)| >= |parts[0]|;
    }
  }

  function DigitChar(d: nat): (c: char)
    requires d < 10
    ensures '0' <= c <= '9'
  {
    "0123456789"[d]
  }

  function DigitValue(c: char): nat
  {
    if '0' <= c <= '9' then (c as int - '0' as int) as nat else 0
  }

  /** Decimal digits of a natural number, most significant first, without leading zeros. */
  function NatDigits(n: nat): (r: string)
    ensures r != []
    ensures forall i :: 0 <= i < |r| ==> '0' <= r[i] <= '9'
    decreases n
  {
    if n < 10 then [DigitChar(n)] else NatDigits(n / 10) + [DigitChar(n % 10)]
  }

  /** How JavaScript renders an integer-valued number as text (`String(n)`, `${n}`). */
  function DecimalString(n: int): (r: string)
    ensures r != [] && NoEdgeSpace(r)
  {
    if n < 0 then "-" + NatDigits(-n) else NatDigits(n)
  }

  /** Reads back a string of decimal digits. */
  function ParseDigits(s: string): nat
  {
    if s == [] then 0 else ParseDigits(s[..|s| - 1]) * 10 + DigitValue(s[|s| - 1])
  }

  function ParseDecimal(s: string): int
  {
    var magnitude: int := if s != [] && s[0] == '-' then ParseDigits(s[1..]) else ParseDigits(s);
    if s != [] && s[0] == '-' then -magnitude else magnitude
  }

  lemma {:induction false} DigitsRoundTrip(n: nat)
    ensures ParseDigits(NatDigits(n)) == n
    decreases n
  {
    if n >= 10 {
      var front := NatDigits(n / 10);
      var s := front + [DigitChar(n % 10)];
      assert s[..|s| - 1] == front;
      DigitsRoundTrip(n / 10);
    }
  }

  /** Distinct integers render as distinct text: the rendering can be read back. */
  lemma DecimalRoundTrip(n: int)
    ensures ParseDecimal(DecimalString(n)) == n
  {
    var s := DecimalString(n);
    if n < 0 {
      assert s == "-" + NatDigits(-n);
      assert s[0] == '-' && s[1..] == NatDigits(-n);
      DigitsRoundTrip(-n);
      assert ParseDecimal(s) == -(ParseDigits(NatDigits(-n)) as int);
    } else {
      assert s == NatDigits(n) && '0' <= s[0] <= '9';
      DigitsRoundTrip(n);
      assert ParseDecimal(s) == ParseDigits(NatDigits(n));
    }
  }
}
