/** Optional values and outcomes shared by every component. */
module Wrappers {
  datatype Option<+T> = None | Some(value: T)

  /** `Rejected` stands for a thrown ProtocolException. */
  datatype Result<+T> = Ok(value: T) | Rejected
}

/** Decimal text as the C++ standard library prints and reads it. */
module Text {
  import opened Wrappers

  const INT_MIN := -0x8000_0000
  const INT_MAX := 0x7fff_ffff

  predicate IsInt32(n: int) { INT_MIN <= n <= INT_MAX }

  predicate IsDigit(c: char) { '0' <= c <= '9' }

  /** std::isspace in the "C" locale. */
  predicate IsSpace(c: char) { c == ' ' || 9 as char <= c <= 13 as char }

  predicate AllDigits(s: string) { forall i :: 0 <= i < |s| ==> IsDigit(s[i]) }

  predicate AllSpace(s: string) { forall i :: 0 <= i < |s| ==> IsSpace(s[i]) }

  predicate Free(s: string, c: char) { c !in s }

  function SkipSpace(s: string): (r: string)
    ensures r == "" <==> AllSpace(s)
    ensures r != "" ==> !IsSpace(r[0])
    ensures |r| <= |s| && r == s[|s| - |r|..]
  {
    if s != "" && IsSpace(s[0]) then SkipSpace(s[1..]) else s
  }

  /** Length of the longest prefix made of digits. */
  function DigitRun(s: string): (n: nat)
    ensures n <= |s| && AllDigits(s[..n])
    ensures n < |s| ==> !IsDigit(s[n])
  {
    if s != "" && IsDigit(s[0]) then 1 + DigitRun(s[1..]) else 0
  }

  function Digit(c: char): (d: nat)
    requires IsDigit(c)
    ensures d < 10
  {
    c as int - '0' as int
  }

  function Value(s: string): nat
    requires AllDigits(s)
  {
    if s == "" then 0 else 10 * Value(s[..|s| - 1]) + Digit(s[|s| - 1])
  }

  function DigitChar(d: nat): (c: char)
    requires d < 10
    ensures IsDigit(c) && Digit(c) == d
  {
    ('0' as int + d) as char
  }

  function Decimal(n: nat): (s: string)
    ensures s != "" && AllDigits(s)
  {
    if n < 10 then [DigitChar(n)] else Decimal(n / 10) + [DigitChar(n % 10)]
  }

  /** std::to_string, and operator<< for int. */
  function ToString(n: int): string
  {
    if n < 0 then "-" + Decimal(-n) else Decimal(n)
  }

  lemma {:induction false} ValueOfDecimal(n: nat)
    ensures Value(Decimal(n)) == n
  {
    if n >= 10 {
      ValueOfDecimal(n / 10);
      assert Decimal(n)[..|Decimal(n)| - 1] == Decimal(n / 10);
    }
  }

  lemma {:induction false} DigitRunOfDigits(s: string, rest: string)
    requires AllDigits(s)
    requires rest == "" || !IsDigit(rest[0])
    ensures DigitRun(s + rest) == |s|
  {
    if s == "" {
      assert s + rest == rest;
    } else {
      assert (s + rest)[1..] == s[1..] + rest;
      DigitRunOfDigits(s[1..], rest);
    }
  }

  /** An optional sign and a run of digits at the head of a text. */
  datatype Numeral = NoDigits(after: string) | Numeral(value: int, after: string)

  function ReadNumeral(s: string): (n: Numeral)
  {
    var signed := s != "" && (s[0] == '-' || s[0] == '+');
    var body := if signed then s[1..] else s;
    var k := DigitRun(body);
    if k == 0 then NoDigits(body)
    else
      var magnitude: int := Value(body[..k]);
      Numeral(if s[0] == '-' then -magnitude else magnitude, body[k..])
  }

  lemma ReadDigits(s: string, rest: string, n: nat)
    requires s != "" && AllDigits(s) && Value(s) == n && (rest == "" || !IsDigit(rest[0]))
    ensures ReadNumeral(s + rest) == Numeral(n, rest)
    ensures ReadNumeral("-" + s + rest) == Numeral(0 - n, rest)
  {
    DigitRunOfDigits(s, rest);
    assert (s + rest)[..|s|] == s && (s + rest)[|s|..] == rest && IsDigit((s + rest)[0]);
    assert ("-" + s + rest)[1..] == s + rest;
  }

  lemma ReadNumeralOfToString(n: int, rest: string)
    requires rest == "" || !IsDigit(rest[0])
    ensures ReadNumeral(ToString(n) + rest) == Numeral(n, rest)
    ensures !IsSpace((ToString(n) + rest)[0])
  {
    var k: nat := if n < 0 then -n else n;
    ValueOfDecimal(k);
    ReadDigits(Decimal(k), rest, k);
    assert n >= 0 ==> IsDigit((ToString(n) + rest)[0]);
  }

  /** std::stoi: a thrown invalid_argument or out_of_range is None; text after the digits is ignored. */
  function Stoi(s: string): (r: Option<int>)
    ensures r.Some? ==> IsInt32(r.value)
  {
    match ReadNumeral(SkipSpace(s))
    case NoDigits(_) => None
    case Numeral(v, _) => if IsInt32(v) then Some(v) else None
  }

  lemma StoiOfToString(n: int)
    requires IsInt32(n)
    ensures Stoi(ToString(n)) == Some(n)
  {
    ReadNumeralOfToString(n, "");
    assert ToString(n) + "" == ToString(n);
  }

  /** Text after the number does not matter, blanks before it do not, and an overflow is refused. */
  lemma StoiOfPrefix(n: int, rest: string)
    requires rest == "" || !IsDigit(rest[0])
    ensures Stoi(ToString(n) + rest) == if IsInt32(n) then Some(n) else None
    ensures Stoi(" " + (ToString(n) + rest)) == Stoi(ToString(n) + rest)
  {
    ReadNumeralOfToString(n, rest);
    assert (" " + (ToString(n) + rest))[1..] == ToString(n) + rest;
  }

  /** Index of the first occurrence, or the length when there is none. */
  function IndexOf(s: string, c: char): (i: nat)
    ensures i <= |s| && Free(s[..i], c)
    ensures i < |s| ==> s[i] == c
    ensures i == |s| <==> Free(s, c)
  {
    if s == "" || s[0] == c then 0
    else
      var i := 1 + IndexOf(s[1..], c);
      assert s[..i] == [s[0]] + s[1..][..i - 1];
      assert s == [s[0]] + s[1..];
      i
  }

  lemma {:induction false} IndexOfAfter(s: string, c: char, rest: string)
    requires Free(s, c)
    ensures IndexOf(s + [c] + rest, c) == |s|
  {
    if s == "" {
      assert s + [c] + rest == [c] + rest;
    } else {
      assert (s + [c] + rest)[1..] == s[1..] + [c] + rest;
      IndexOfAfter(s[1..], c, rest);
    }
  }
}
