/** C string scanning: white space, searches, decimal numbers. A cursor into a string is modelled by the
    suffix it points at; strings end where the C string has its NUL. */
module Text {
  import opened Base

  const LONG_MAX: int := 0x7FFF_FFFF_FFFF_FFFF

  predicate IsSpace(c: char) { c == ' ' || '\t' <= c <= '\r' }

  function SkipWs(t: string): string {
    if t != "" && IsSpace(t[0]) then SkipWs(t[1..]) else t
  }

  /** `strstr`: the suffix that starts with the first occurrence of a needle. */
  function Find(t: string, needle: string): Option<string> {
    if needle <= t then Some(t)
    else if t == "" then None
    else Find(t[1..], needle)
  }

  /** `strchr` and one step further: what follows the first occurrence of a character. */
  function After(t: string, c: char): Option<string> {
    if t == "" then None
    else if t[0] == c then Some(t[1..])
    else After(t[1..], c)
  }

  lemma {:induction false} AfterSkips(t: string, rest: string, c: char)
    requires c !in t
    ensures After(t + rest, c) == After(rest, c)
  {
    if t == "" {
      assert t + rest == rest;
    } else {
      assert (t + rest)[1..] == t[1..] + rest;
      AfterSkips(t[1..], rest, c);
    }
  }

  lemma {:induction false} FindSkips(t: string, rest: string, needle: string)
    requires needle != "" && needle[0] !in t
    ensures Find(t + rest, needle) == Find(rest, needle)
  {
    if t == "" {
      assert t + rest == rest;
    } else {
      assert (t + rest)[0] != needle[0];
      assert (t + rest)[1..] == t[1..] + rest;
      FindSkips(t[1..], rest, needle);
    }
  }

  // ----- lines -----

  function TrimNewline(s: string): string {
    if s != "" && (Last(s) == '\n' || Last(s) == '\r') then TrimNewline(Init(s)) else s
  }

  function Lower(c: char): char {
    if 'A' <= c <= 'Z' then c + ' ' else c
  }

  predicate EqualIgnoringCase(a: string, b: string) {
    |a| == |b| && forall i :: 0 <= i < |a| ==> Lower(a[i]) == Lower(b[i])
  }

  // ----- decimal numbers -----

  predicate IsDigit(c: char) { '0' <= c <= '9' }

  function DigitValue(c: char): nat
    requires IsDigit(c)
  {
    c as nat - '0' as nat
  }

  function Digits(n: nat): (s: string)
    ensures s != "" && forall i :: 0 <= i < |s| ==> IsDigit(s[i])
  {
    var digit := ('0' as nat + n % 10) as char;
    if n < 10 then [digit] else Digits(n / 10) + [digit]
  }

  /** What `%ld` prints. */
  function Decimal(n: int): string {
    if n < 0 then "-" + Digits(-n) else Digits(n)
  }

  function DigitPrefix(t: string): (s: string)
    ensures forall i :: 0 <= i < |s| ==> IsDigit(s[i])
  {
    if t != "" && IsDigit(t[0]) then [t[0]] + DigitPrefix(t[1..]) else ""
  }

  function Value(s: string): nat
    requires forall i :: 0 <= i < |s| ==> IsDigit(s[i])
  {
    if s == "" then 0 else 10 * Value(Init(s)) + DigitValue(Last(s))
  }

  /** `strtol` in base ten with its checks: no digits and a value out of range both fail. */
  function ParseLong(t: string): Option<int> {
    var u := SkipWs(t);
    var negative := u != "" && u[0] == '-';
    var digits := DigitPrefix(if u != "" && (u[0] == '-' || u[0] == '+') then u[1..] else u);
    var magnitude: int := Value(digits);
    var v := if negative then -magnitude else magnitude;
    if digits == "" || v > LONG_MAX || v < -LONG_MAX - 1 then None else Some(v)
  }

  lemma {:induction false} ValueOfDigits(n: nat)
    ensures Value(Digits(n)) == n
  {
    if n >= 10 {
      ValueOfDigits(n / 10);
      assert Init(Digits(n)) == Digits(n / 10);
    }
  }

  lemma {:induction false} DigitPrefixOf(s: string, rest: string)
    requires forall i :: 0 <= i < |s| ==> IsDigit(s[i])
    requires rest == "" || !IsDigit(rest[0])
    ensures DigitPrefix(s + rest) == s
  {
    if s == "" {
      assert s + rest == rest;
    } else {
      assert (s + rest)[1..] == s[1..] + rest;
      DigitPrefixOf(s[1..], rest);
    }
  }

  lemma {:induction false} DigitsLength(n: nat, k: nat)
    requires n < Pow2(k) && k > 0
    ensures |Digits(n)| <= k
  {
    if n >= 10 {
      assert n / 10 < Pow2(k - 1);
      DigitsLength(n / 10, k - 1);
    }
  }

  lemma DecimalLength(n: int)
    requires -LONG_MAX - 1 <= n <= LONG_MAX
    ensures |Decimal(n)| <= 65
  {
    WordSizes();
    DigitsLength(if n < 0 then -n else n, 64);
  }

  lemma {:induction false} DecimalCharacters(n: int)
    ensures Decimal(n) != "" && forall i :: 0 <= i < |Decimal(n)| ==> IsDigit(Decimal(n)[i]) || Decimal(n)[i] == '-'
  {
  }

  lemma UnsignedRoundTrip(n: nat, rest: string)
    requires rest == "" || !IsDigit(rest[0])
    ensures DigitPrefix(Digits(n) + rest) == Digits(n) && Value(Digits(n)) == n
  {
    DigitPrefixOf(Digits(n), rest);
    ValueOfDigits(n);
  }

  lemma NegativeRoundTrip(t: string, digits: string)
    requires digits != "" && forall i :: 0 <= i < |digits| ==> IsDigit(digits[i])
    requires t != "" && t[0] == '-' && DigitPrefix(t[1..]) == digits && Value(digits) <= LONG_MAX + 1
    ensures ParseLong(t) == Some(-(Value(digits) as int))
  {
  }

  lemma PositiveRoundTrip(t: string, digits: string)
    requires digits != "" && forall i :: 0 <= i < |digits| ==> IsDigit(digits[i])
    requires t != "" && IsDigit(t[0]) && DigitPrefix(t) == digits && Value(digits) <= LONG_MAX
    ensures ParseLong(t) == Some(Value(digits))
  {
  }

  lemma MinusRoundTrip(n: nat, rest: string)
    requires n <= LONG_MAX + 1 && (rest == "" || !IsDigit(rest[0]))
    ensures ParseLong("-" + Digits(n) + rest) == Some(-(n as int))
  {
    var t := "-" + Digits(n) + rest;
    UnsignedRoundTrip(n, rest);
    assert t[1..] == Digits(n) + rest;
    NegativeRoundTrip(t, Digits(n));
  }

  lemma PlainRoundTrip(n: nat, rest: string)
    requires n <= LONG_MAX && (rest == "" || !IsDigit(rest[0]))
    ensures ParseLong(Digits(n) + rest) == Some(n)
  {
    var t := Digits(n) + rest;
    UnsignedRoundTrip(n, rest);
    assert t[0] == Digits(n)[0];
    PositiveRoundTrip(t, Digits(n));
  }

  /** A printed number reads back, whatever non-digit follows it. */
  lemma DecimalRoundTrip(n: int, rest: string)
    requires -LONG_MAX - 1 <= n <= LONG_MAX
    requires rest == "" || !IsDigit(rest[0])
    ensures ParseLong(Decimal(n) + rest) == Some(n)
  {
    if n < 0 {
      MinusRoundTrip(-n, rest);
    } else {
      PlainRoundTrip(n, rest);
    }
  }

  // ----- what else is read as a number -----

  /** White space and a plus sign before a number are accepted. */
  lemma LeadingSpace(c: char, t: string)
    requires IsSpace(c)
    ensures ParseLong([c] + t) == ParseLong(t)
  {
    assert ([c] + t)[1..] == t;
  }

  /** A number without sign reads back exactly if it fits 64 bits. */
  lemma PlainNumberIff(n: nat, rest: string)
    requires rest == "" || !IsDigit(rest[0])
    ensures ParseLong(Digits(n) + rest) == if n < 0x8000_0000_0000_0000 then Some(n) else None
  {
    UnsignedRoundTrip(n, rest);
    DigitsStart(n);
    assert (Digits(n) + rest)[0] == Digits(n)[0];
  }

  /** So does one with a sign, a minus allowing one more. */
  lemma SignedNumberIff(n: nat, rest: string)
    requires rest == "" || !IsDigit(rest[0])
    ensures ParseLong("+" + (Digits(n) + rest)) == if n < 0x8000_0000_0000_0000 then Some(n) else None
    ensures ParseLong("-" + (Digits(n) + rest)) == if n <= 0x8000_0000_0000_0000 then Some(-(n as int)) else None
  {
    var t := Digits(n) + rest;
    UnsignedRoundTrip(n, rest);
    assert ("+" + t)[1..] == t && ("-" + t)[1..] == t;
  }

  lemma {:induction false} DigitsStart(n: nat)
    ensures Digits(n) != "" && IsDigit(Digits(n)[0])
  {
    if n >= 10 {
      DigitsStart(n / 10);
    }
  }

  /** Text that starts neither with white space, a sign nor a digit is no number. */
  lemma NoNumber(t: string)
    requires t == "" || (!IsSpace(t[0]) && !IsDigit(t[0]) && t[0] != '+' && t[0] != '-')
    ensures ParseLong(t) == None
  {
  }

}
