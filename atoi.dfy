/**
  `atoi` from the C library, as a pure function on bytes: leading white
  space is skipped, one optional sign is read, then decimal digits up to the
  first byte that is not a digit. A token with no such digits reads as 0.
  The value is an unbounded integer here; whether it fits a C `int` (the
  library's behaviour is undefined when it does not) is for the caller to
  check.
*/
module AsciiToInt {
  import opened CTypes

  predicate IsDigit(b: byte) {
    Digit0 <= b <= Digit9
  }

  /** `isspace` in the C locale: space, tab, line feed, vertical tab, form feed, carriage return. */
  predicate IsSpace(b: byte) {
    b == Space || 9 <= b <= CR
  }

  /** The token without its leading white space. */
  function SkipSpace(s: seq<byte>): (r: seq<byte>)
    ensures r == [] || !IsSpace(r[0])
  {
    if s != [] && IsSpace(s[0]) then SkipSpace(s[1..]) else s
  }

  /** The run of decimal digits at the front of `s`. */
  function DigitRun(s: seq<byte>): (r: seq<byte>)
    ensures |r| <= |s| && r == s[..|r|]
    ensures forall i :: 0 <= i < |r| ==> IsDigit(r[i])
    ensures |r| < |s| ==> !IsDigit(s[|r|])
  {
    if s != [] && IsDigit(s[0]) then [s[0]] + DigitRun(s[1..]) else []
  }

  /** The number a run of decimal digits denotes, most significant digit first. */
  function DigitsValue(ds: seq<byte>): nat
    requires forall i :: 0 <= i < |ds| ==> IsDigit(ds[i])
  {
    if ds == [] then 0
    else
      var last := ds[|ds| - 1];
      assert IsDigit(last);
      10 * DigitsValue(ds[..|ds| - 1]) + (last - Digit0)
  }

  /** `atoi(t)`: the sign of the result is the sign written, and a token that starts with no number reads as 0. */
  function Atoi(t: seq<byte>): (r: int)
    ensures r < 0 ==> SkipSpace(t) != [] && SkipSpace(t)[0] == Minus
    ensures r > 0 ==> SkipSpace(t) != [] && SkipSpace(t)[0] != Minus
    ensures SkipSpace(t) == [] || !(IsDigit(SkipSpace(t)[0]) || SkipSpace(t)[0] == Minus || SkipSpace(t)[0] == Plus)
      ==> r == 0
  {
    var u := SkipSpace(t);
    if u != [] && u[0] == Minus then -(DigitsValue(DigitRun(u[1..])) as int)
    else if u != [] && u[0] == Plus then DigitsValue(DigitRun(u[1..]))
    else DigitsValue(DigitRun(u))
  }

  /** The decimal digits of `n`, with no leading zero. */
  function Decimal(n: nat): (ds: seq<byte>)
    ensures |ds| > 0
    ensures forall i :: 0 <= i < |ds| ==> IsDigit(ds[i])
    ensures n < 10 ==> |ds| == 1
  {
    if n < 10 then [Digit0 + n] else Decimal(n / 10) + [Digit0 + n % 10]
  }

  /** An integer in decimal, with a leading minus sign when negative, as `Serial.print(int)` writes it. */
  function FormatInt(x: int): (t: seq<byte>)
    ensures |t| > 0 && (IsDigit(t[0]) || t[0] == Minus)
    ensures forall i :: 1 <= i < |t| ==> IsDigit(t[i])
    ensures 0 <= x < 10 ==> |t| == 1
  {
    if x < 0 then [Minus] + Decimal(-x) else Decimal(x)
  }

  lemma {:induction false} DecimalValue(n: nat)
    ensures DigitsValue(Decimal(n)) == n
  {
    if n >= 10 {
      var ds := Decimal(n);
      assert ds[..|ds| - 1] == Decimal(n / 10);
      DecimalValue(n / 10);
    }
  }

  /** The digit run stops exactly at the first byte that is not a digit. */
  lemma {:induction false} DigitRunOfDigits(ds: seq<byte>, rest: seq<byte>)
    requires forall i :: 0 <= i < |ds| ==> IsDigit(ds[i])
    requires rest == [] || !IsDigit(rest[0])
    ensures DigitRun(ds + rest) == ds
  {
    if ds == [] {
      assert ds + rest == rest;
    } else {
      assert (ds + rest)[1..] == ds[1..] + rest;
      DigitRunOfDigits(ds[1..], rest);
    }
  }

  /** What `SkipSpace` drops is white space from the front, and what it keeps is the rest. */
  lemma {:induction false} SkipSpaceDropsSpace(s: seq<byte>)
    ensures |SkipSpace(s)| <= |s| && SkipSpace(s) == s[|s| - |SkipSpace(s)|..]
    ensures forall i :: 0 <= i < |s| - |SkipSpace(s)| ==> IsSpace(s[i])
  {
    if s != [] && IsSpace(s[0]) {
      SkipSpaceDropsSpace(s[1..]);
      assert s[1..][|s| - 1 - |SkipSpace(s)|..] == s[|s| - |SkipSpace(s)|..];
    }
  }

  /** The digits `Decimal` writes, followed by a non-digit, read back as the number. */
  lemma DecimalDigitsValue(n: nat, rest: seq<byte>)
    requires rest == [] || !IsDigit(rest[0])
    ensures DigitsValue(DigitRun(Decimal(n) + rest)) == n
  {
    DigitRunOfDigits(Decimal(n), rest);
    DecimalValue(n);
  }

  /** Round trip: `atoi` reads back what `FormatInt` writes, whatever non-digit follows it. */
  lemma AtoiFormatInt(x: int, rest: seq<byte>)
    requires rest == [] || !IsDigit(rest[0])
    ensures Atoi(FormatInt(x) + rest) == x
  {
    if x < 0 {
      AtoiNegative(-x, rest);
    } else {
      AtoiNonNegative(x, rest);
    }
  }

  lemma AtoiNonNegative(n: nat, rest: seq<byte>)
    requires rest == [] || !IsDigit(rest[0])
    ensures Atoi(FormatInt(n) + rest) == n
  {
    var t := Decimal(n) + rest;
    DecimalDigitsValue(n, rest);
    SkipNonSpace(t);
  }

  lemma AtoiNegative(n: int, rest: seq<byte>)
    requires n > 0
    requires rest == [] || !IsDigit(rest[0])
    ensures Atoi(FormatInt(-n) + rest) == -n
  {
    var u := Decimal(n) + rest;
    var t := [Minus] + u;
    assert FormatInt(-n) == [Minus] + Decimal(n);
    assert FormatInt(-n) + rest == t;
    DecimalDigitsValue(n, rest);
    SkipNonSpace(t);
    assert t[1..] == u;
  }

  lemma SkipNonSpace(t: seq<byte>)
    requires t != [] && !IsSpace(t[0])
    ensures SkipSpace(t) == t
  {
  }

  /** Appending a byte that cannot extend the digit run does not change the value. */
  lemma {:induction false} DigitRunIgnoresTrailingNonDigit(s: seq<byte>, b: byte)
    requires !IsDigit(b)
    ensures DigitRun(s + [b]) == DigitRun(s)
  {
    if s != [] && IsDigit(s[0]) {
      assert (s + [b])[1..] == s[1..] + [b];
      DigitRunIgnoresTrailingNonDigit(s[1..], b);
    }
  }

  lemma {:induction false} SkipSpaceAppend(s: seq<byte>, b: byte)
    ensures SkipSpace(s) != [] ==> SkipSpace(s + [b]) == SkipSpace(s) + [b]
    ensures SkipSpace(s) == [] ==> SkipSpace(s + [b]) == SkipSpace([b])
  {
    if s != [] && IsSpace(s[0]) {
      assert (s + [b])[1..] == s[1..] + [b];
      SkipSpaceAppend(s[1..], b);
    } else if s == [] {
      assert s + [b] == [b];
    }
  }

  /**
    A byte that is not a digit, appended to a token, does not change what
    `atoi` reads from it; in particular the carriage return that ends the
    last token of a line is ignored.
  */
  lemma AtoiIgnoresTrailingNonDigit(t: seq<byte>, b: byte)
    requires !IsDigit(b)
    ensures Atoi(t + [b]) == Atoi(t)
  {
    var u := SkipSpace(t);
    SkipSpaceAppend(t, b);
    if u == [] {
      assert DigitRun([b]) == [];
      assert [b][1..] == [];
    } else {
      assert (u + [b])[0] == u[0];
      assert (u + [b])[1..] == u[1..] + [b];
      DigitRunIgnoresTrailingNonDigit(u[1..], b);
      DigitRunIgnoresTrailingNonDigit(u, b);
    }
  }

  /** White space in front of a token that does not start with white space is skipped entirely. */
  lemma {:induction false} SkipLeading(ws: seq<byte>, u: seq<byte>)
    requires forall i :: 0 <= i < |ws| ==> IsSpace(ws[i])
    requires u == [] || !IsSpace(u[0])
    ensures SkipSpace(ws + u) == u
  {
    if ws == [] {
      assert ws + u == u;
    } else {
      assert (ws + u)[0] == ws[0];
      assert (ws + u)[1..] == ws[1..] + u;
      SkipLeading(ws[1..], u);
    }
  }

  /**
    `atoi` of white space, a sign, digits and then anything that is not a
    digit: the digits' value, negated after a minus sign.
  */
  lemma AtoiSigned(ws: seq<byte>, sign: byte, ds: seq<byte>, rest: seq<byte>)
    requires forall i :: 0 <= i < |ws| ==> IsSpace(ws[i])
    requires sign == Minus || sign == Plus
    requires forall i :: 0 <= i < |ds| ==> IsDigit(ds[i])
    requires rest == [] || !IsDigit(rest[0])
    ensures Atoi(ws + ([sign] + (ds + rest))) == if sign == Minus then -(DigitsValue(ds) as int) else DigitsValue(ds)
  {
    var u := [sign] + (ds + rest);
    SkipLeading(ws, u);
    assert u[1..] == ds + rest;
    DigitRunOfDigits(ds, rest);
  }

  /** `atoi` of white space, at least one digit and then anything that is not a digit: the digits' value. */
  lemma AtoiUnsigned(ws: seq<byte>, ds: seq<byte>, rest: seq<byte>)
    requires forall i :: 0 <= i < |ws| ==> IsSpace(ws[i])
    requires |ds| > 0 && forall i :: 0 <= i < |ds| ==> IsDigit(ds[i])
    requires rest == [] || !IsDigit(rest[0])
    ensures Atoi(ws + (ds + rest)) == DigitsValue(ds)
  {
    var u := ds + rest;
    assert u[0] == ds[0];
    SkipLeading(ws, u);
    DigitRunOfDigits(ds, rest);
  }

  /** Leading zeros do not change the value of a run of digits. */
  lemma {:induction false} LeadingZeroIgnored(ds: seq<byte>)
    requires forall i :: 0 <= i < |ds| ==> IsDigit(ds[i])
    ensures DigitsValue([Digit0] + ds) == DigitsValue(ds)
  {
    if ds != [] {
      var zs := [Digit0] + ds;
      assert zs[..|zs| - 1] == [Digit0] + ds[..|ds| - 1];
      assert zs[|zs| - 1] == ds[|ds| - 1];
      LeadingZeroIgnored(ds[..|ds| - 1]);
    }
  }

  /** A token that holds no decimal digit at all, such as `a` or a lone carriage return, reads as 0. */
  lemma AtoiWithoutDigits(t: seq<byte>)
    requires forall i :: 0 <= i < |t| ==> !IsDigit(t[i])
    ensures Atoi(t) == 0
  {
    var u := SkipSpace(t);
    SkipSpaceDropsSpace(t);
    if u != [] {
      assert u[0] == t[|t| - |u|];
      assert DigitRun(u) == [];
      if |u| > 1 {
        assert u[1] == t[|t| - |u| + 1];
      }
      assert DigitRun(u[1..]) == [];
    }
  }
}
