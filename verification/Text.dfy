/** Decimal text, separator-joined keys and hexadecimal text as the services format and parse them. */
module Text {

  datatype Option<+T> = None | Some(value: T)

  predicate IsDigit(c: char) { '0' <= c <= '9' }

  predicate AllDigits(s: string) { forall i :: 0 <= i < |s| ==> IsDigit(s[i]) }

  function DigitChar(d: nat): (c: char)
    requires d < 10
    ensures IsDigit(c) && c as int == '0' as int + d
  {
    (('0' as int) + d) as char
  }

  /** The "%d" rendering of a non-negative integer. */
  function Itoa(n: nat): (s: string)
    ensures s != "" && AllDigits(s)
  {
    if n < 10 then [DigitChar(n)] else Itoa(n / 10) + [DigitChar(n % 10)]
  }

  /** The number a run of decimal digits denotes. */
  function DigitsValue(s: string): nat
    requires AllDigits(s)
  {
    if s == "" then 0
    else 10 * DigitsValue(s[..|s| - 1]) + (s[|s| - 1] as int - '0' as int)
  }

  function Pow10(k: nat): nat { if k == 0 then 1 else 10 * Pow10(k - 1) }

  /** The first digit weighs most. */
  lemma {:induction false} FirstDigitWeighsMost(d: char, rest: string)
    requires IsDigit(d) && AllDigits(rest)
    ensures AllDigits([d] + rest)
    ensures DigitsValue([d] + rest) == (d as int - '0' as int) * Pow10(|rest|) + DigitsValue(rest)
  {
    var s := [d] + rest;
    if rest == "" {
      assert s[..0] == "";
    } else {
      var init := rest[..|rest| - 1];
      assert s[..|s| - 1] == [d] + init;
      FirstDigitWeighsMost(d, init);
    }
  }

  lemma {:induction false} ItoaValue(n: nat)
    ensures DigitsValue(Itoa(n)) == n
  {
    if n >= 10 {
      ItoaValue(n / 10);
      assert Itoa(n)[..|Itoa(n)| - 1] == Itoa(n / 10);
    } else {
      assert [DigitChar(n)][..0] == "";
    }
  }

  lemma ItoaInjective(m: nat, n: nat)
    requires Itoa(m) == Itoa(n)
    ensures m == n
  {
    ItoaValue(m);
    ItoaValue(n);
  }

  /** Splitting at the first separator recovers both halves. */
  lemma JoinFirstInjective(a: string, b: string, c: string, d: string, sep: char)
    requires sep !in a && sep !in c
    requires a + [sep] + b == c + [sep] + d
    ensures a == c && b == d
  {
    var x, y := a + [sep] + b, c + [sep] + d;
    assert x[|a|] == sep && y[|c|] == sep;
    assert |a| == |c|;
    assert a == x[..|a|] && c == y[..|c|];
    assert b == x[|a| + 1..] && d == y[|c| + 1..];
  }

  /** Splitting at the last separator recovers both halves. */
  lemma JoinLastInjective(a: string, b: string, c: string, d: string, sep: char)
    requires sep !in b && sep !in d
    requires a + [sep] + b == c + [sep] + d
    ensures a == c && b == d
  {
    var x, y := a + [sep] + b, c + [sep] + d;
    assert x[|a|] == sep && y[|c|] == sep;
    assert |a| == |c|;
    assert a == x[..|a|] && c == y[..|c|];
    assert b == x[|a| + 1..] && d == y[|c| + 1..];
  }

  // ----- signed decimal parsing -----

  const MAX_INT64: int := 0x7fff_ffff_ffff_ffff
  const MIN_INT64: int := -0x8000_0000_0000_0000

  predicate IsInt64(n: int) { MIN_INT64 <= n <= MAX_INT64 }

  /** Base-10 integer text: an optional sign and at least one digit. */
  function ParseDecimal(s: string): (r: Option<int>)
  {
    if s != "" && (s[0] == '-' || s[0] == '+') then
      if |s| > 1 && AllDigits(s[1..]) then
        Some(if s[0] == '-' then -(DigitsValue(s[1..]) as int) else DigitsValue(s[1..]))
      else None
    else if s != "" && AllDigits(s) then Some(DigitsValue(s))
    else None
  }

  /** The digits text starts with. */
  function DigitRun(s: string): (r: string)
    ensures AllDigits(r)
  {
    if s != "" && IsDigit(s[0]) then [s[0]] + DigitRun(s[1..]) else ""
  }

  /** The scan stops at the first digit that takes it past 64 bits, before it sees
      what follows. */
  predicate Overflows(s: string) { DigitsValue(DigitRun(s)) >= 0x1_0000_0000_0000_0000 }

  /** A 64-bit parse yields a value together with an error flag: a syntax error
      comes with 0, a range error with the nearest representable number, also
      when the overflow comes before a character that does not belong. */
  function ParseInt64(s: string): (r: (int, bool))
    ensures IsInt64(r.0)
    ensures r.1 <==> exists n :: ParseDecimal(s) == Some(n) && IsInt64(n)
    ensures r.1 ==> ParseDecimal(s) == Some(r.0)
  {
    match ParseDecimal(s)
    case None =>
      if s != "" && s[0] == '-' then if Overflows(s[1..]) then (MIN_INT64, false) else (0, false)
      else if s != "" && Overflows(if s[0] == '+' then s[1..] else s) then (MAX_INT64, false)
      else (0, false)
    case Some(n) =>
      if n > MAX_INT64 then (MAX_INT64, false)
      else if n < MIN_INT64 then (MIN_INT64, false)
      else (n, true)
  }

  /** Parsing rendered text gives the number back, and its negative after a minus. */
  lemma ParseRendersBack(n: nat)
    ensures ParseDecimal(Itoa(n)) == Some(n)
    ensures ParseDecimal("-" + Itoa(n)) == Some(-(n as int))
  {
    ItoaValue(n);
    assert IsDigit(Itoa(n)[0]);
    assert ("-" + Itoa(n))[1..] == Itoa(n);
  }

  /** A run of digits reads as its value, after a plus too, and negated after a
      minus. */
  lemma SignedReads(d: string)
    requires d != "" && AllDigits(d)
    ensures ParseDecimal(d) == ParseDecimal("+" + d) == Some(DigitsValue(d))
    ensures ParseDecimal("-" + d) == Some(-(DigitsValue(d) as int))
  {
    assert IsDigit(d[0]);
    assert ("+" + d)[1..] == d && ("-" + d)[1..] == d;
  }

  /** Nothing else is a number. */
  lemma DecimalIff(s: string)
    ensures ParseDecimal(s).Some? <==> exists d :: d != "" && AllDigits(d) && (s == d || s == "+" + d || s == "-" + d)
  {
    if ParseDecimal(s).Some? {
      var d := if s[0] == '-' || s[0] == '+' then s[1..] else s;
      assert s == d || s == "+" + d || s == "-" + d;
    }
    if d :| d != "" && AllDigits(d) && (s == d || s == "+" + d || s == "-" + d) {
      SignedReads(d);
    }
  }

  lemma {:induction false} RunStops(d: string, c: char, rest: string)
    requires AllDigits(d) && !IsDigit(c)
    ensures DigitRun(d + [c] + rest) == d
  {
    if d != "" {
      assert (d + [c] + rest)[1..] == d[1..] + [c] + rest;
      RunStops(d[1..], c, rest);
    }
  }

  /** A number outside 64 bits gives the nearest one inside, flagged. */
  lemma OutOfRange(s: string)
    requires ParseDecimal(s).Some? && !IsInt64(ParseDecimal(s).value)
    ensures ParseInt64(s) == (if ParseDecimal(s).value > 0 then 0x7fff_ffff_ffff_ffff else -0x8000_0000_0000_0000, false)
  {
  }

  /** Digits and then a character that does not belong, with a sign or without: the
      extreme of that sign when the digits alone pass 64 unsigned bits, and zero
      otherwise. */
  lemma BadCharacter(d: string, c: char, rest: string)
    requires AllDigits(d) && !IsDigit(c) && (d == "" ==> c != '-' && c != '+')
    ensures var bad := d + [c] + rest; var past := DigitsValue(d) >= 0x1_0000_0000_0000_0000;
      && ParseInt64(bad) == ParseInt64("+" + bad) == (if past then 0x7fff_ffff_ffff_ffff else 0, false)
      && ParseInt64("-" + bad) == (if past then -0x8000_0000_0000_0000 else 0, false)
  {
    var bad := d + [c] + rest;
    RunStops(d, c, rest);
    assert bad[|d|] == c && !AllDigits(bad);
    assert bad[0] == if d == "" then c else d[0];
    assert ("+" + bad)[1..] == bad && ("-" + bad)[1..] == bad;
  }
}
