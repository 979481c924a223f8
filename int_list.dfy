/**
  `string_to_array`: the NUL-terminated line in the input buffer is cut into
  tokens by `strtok` on commas, each token is converted by `atoi`, and the
  values are written to the front of a 7-slot array until the tokens run out
  or the array is full. The number of values written is returned.
*/
module IntList {
  import opened CTypes
  import opened StrTok
  import opened AsciiToInt

  /** `INT_ARRAY_SIZE`: the slots of `int_array`, and the number of values a command must carry. */
  const MaxValues: nat := 7

  /** The buffer holds a NUL, so the C string starting at its first byte ends inside it. */
  predicate IsCString(buf: seq<byte>) {
    Nul in buf
  }

  function FirstNul(buf: seq<byte>): (k: nat)
    requires IsCString(buf)
    ensures k < |buf| && buf[k] == Nul
    ensures Nul !in buf[..k]
  {
    if buf[0] == Nul then 0 else 1 + FirstNul(buf[1..])
  }

  /** The C string the buffer holds: every byte before the first NUL. */
  function CString(buf: seq<byte>): (line: seq<byte>)
    requires IsCString(buf)
    ensures Nul !in line && |line| < |buf|
    ensures buf[..|line| + 1] == line + [Nul]
  {
    buf[..FirstNul(buf)]
  }

  function Min(a: int, b: int): int {
    if a < b then a else b
  }

  /** What `string_to_array` computes from a line: `atoi` of each of its first seven tokens. */
  function Convert(line: seq<byte>): (vs: seq<int>)
    ensures |vs| <= MaxValues
    ensures |vs| == MaxValues <==> |Tokens(line)| >= MaxValues
    ensures |vs| < MaxValues ==> |vs| == |Tokens(line)|
    ensures forall i :: 0 <= i < |vs| ==> vs[i] == Atoi(Tokens(line)[i])
  {
    var ts := Tokens(line);
    seq(Min(|ts|, MaxValues), i requires 0 <= i < Min(|ts|, MaxValues) => Atoi(ts[i]))
  }

  /** Every value `atoi` produces for the line fits a C `int`; otherwise `atoi` has undefined behaviour. */
  predicate ConvertsWithinInt(line: seq<byte>) {
    forall i :: 0 <= i < |Convert(line)| ==> FitsInt(Convert(line)[i])
  }

  /**
    `string_to_array(in_str, int_array)`. The count returned is the number
    of tokens, capped at seven, and exactly the first `count` slots are
    written, each with `atoi` of the matching token; the other slots keep
    what an earlier command left in them.
  */
  method StringToArray(inStr: array<byte>, intArray: array<cint>) returns (count: nat)
    requires IsCString(inStr[..])
    requires ConvertsWithinInt(CString(inStr[..]))
    requires intArray.Length == MaxValues
    modifies intArray
    ensures count == Min(|Tokens(CString(inStr[..]))|, MaxValues)
    ensures forall i :: 0 <= i < count ==> intArray[i] == Atoi(Tokens(CString(inStr[..]))[i])
    ensures forall i :: count <= i < MaxValues ==> intArray[i] == old(intArray[i])
  {
    var line := CString(inStr[..]);
    ghost var ts := Tokens(line);
    count := 0;
    var cursor := 0;
    var token := Strtok(line, cursor);
    while token.Some?
      invariant 0 <= count < MaxValues && cursor <= |line|
      invariant token == Strtok(line, cursor)
      invariant count <= |ts| && ts[count..] == Tokens(line[cursor..])
      invariant forall i :: 0 <= i < count ==> intArray[i] == Atoi(ts[i])
      invariant forall i :: count <= i < MaxValues ==> intArray[i] == old(intArray[i])
      decreases |line| - cursor
    {
      var span := token.value;
      NextToken(line, cursor, count, ts);
      intArray[count] := Atoi(line[span.start..span.end]);
      count := count + 1;
      cursor := span.end;
      token := Strtok(line, cursor);
      if count >= MaxValues {
        break;
      }
    }
    if token.None? {
      StrtokAgrees(line, cursor);
      assert line[cursor..] == [] || Tokens(line[cursor..]) == [];
    }
    assert count == Min(|ts|, MaxValues);
    assert inStr[..] == old(inStr[..]);
    assert Tokens(CString(inStr[..])) == ts;
  }

  /** One pass of the loop in `StringToArray`: the token found is the next one, and its value fits an `int`. */
  lemma NextToken(line: seq<byte>, cursor: nat, count: nat, ts: seq<seq<byte>>)
    requires cursor <= |line| && ts == Tokens(line)
    requires count < MaxValues && ConvertsWithinInt(line)
    requires count <= |ts| && ts[count..] == Tokens(line[cursor..])
    requires Strtok(line, cursor).Some?
    ensures var sp := Strtok(line, cursor).value;
      count < |ts| && ts[count] == line[sp.start..sp.end] && ts[count + 1..] == Tokens(line[sp.end..])
    ensures FitsInt(Atoi(ts[count]))
  {
    StrtokAgrees(line, cursor);
    var sp := Strtok(line, cursor).value;
    assert ts[count..][0] == ts[count];
    assert ts[count..][1..] == ts[count + 1..];
    assert Convert(line)[count] == Atoi(ts[count]);
  }

  /** A command line as typed: the values in decimal, separated by commas. */
  function CommandText(xs: seq<int>): seq<byte> {
    Join(seq(|xs|, i requires 0 <= i < |xs| => FormatInt(xs[i])))
  }

  /** Appending the carriage return to the last of some tokens leaves them all tokens. */
  lemma MarkedLastToken(ts: seq<seq<byte>>, ts': seq<seq<byte>>)
    requires |ts| > 0
    requires forall i :: 0 <= i < |ts| ==> IsToken(ts[i])
    requires ts' == ts[..|ts| - 1] + [ts[|ts| - 1] + [CR]]
    ensures |ts'| == |ts| && forall i :: 0 <= i < |ts'| ==> IsToken(ts'[i])
  {
    var k := |ts|;
    forall i | 0 <= i < k
      ensures IsToken(ts'[i])
    {
      if i < k - 1 {
        assert ts'[i] == ts[i];
      } else {
        assert ts'[i] == ts[k - 1] + [CR];
        assert IsToken(ts[k - 1]);
      }
    }
  }

  /** The carriage return that ends a joined line stays attached to its last token. */
  lemma TokensOfTypedLine(ts: seq<seq<byte>>)
    requires |ts| > 0
    requires forall i :: 0 <= i < |ts| ==> IsToken(ts[i])
    ensures Tokens(Join(ts) + [CR]) == ts[..|ts| - 1] + [ts[|ts| - 1] + [CR]]
  {
    JoinExtendsLast(ts, [CR]);
    var ts' := ts[..|ts| - 1] + [ts[|ts| - 1] + [CR]];
    MarkedLastToken(ts, ts');
    TokensOfJoin(ts');
  }

  /** Tokens joined by commas and ended by the carriage return convert token by token, capped at seven. */
  lemma ConvertJoinedLine(ts: seq<seq<byte>>)
    requires |ts| > 0
    requires forall i :: 0 <= i < |ts| ==> IsToken(ts[i])
    ensures |Convert(Join(ts) + [CR])| == Min(|ts|, MaxValues)
    ensures forall i :: 0 <= i < Min(|ts|, MaxValues) ==> Convert(Join(ts) + [CR])[i] == Atoi(ts[i])
  {
    var k := |ts|;
    TokensOfTypedLine(ts);
    AtoiIgnoresTrailingNonDigit(ts[k - 1], CR);
    ConvertMarkedTokens(Join(ts) + [CR], ts, ts[..k - 1] + [ts[k - 1] + [CR]]);
  }

  /** A line whose tokens are `ts` with the carriage return on the last one converts as `ts` would. */
  lemma ConvertMarkedTokens(line: seq<byte>, ts: seq<seq<byte>>, us: seq<seq<byte>>)
    requires |ts| > 0 && us == ts[..|ts| - 1] + [ts[|ts| - 1] + [CR]]
    requires Tokens(line) == us
    requires Atoi(ts[|ts| - 1] + [CR]) == Atoi(ts[|ts| - 1])
    ensures |Convert(line)| == Min(|ts|, MaxValues)
    ensures forall i :: 0 <= i < Min(|ts|, MaxValues) ==> Convert(line)[i] == Atoi(ts[i])
  {
    forall i | 0 <= i < Min(|ts|, MaxValues)
      ensures Convert(line)[i] == Atoi(ts[i])
    {
      if i < |ts| - 1 {
        assert us[i] == ts[i];
      }
    }
  }

  /**
    Round trip: a command typed as decimal values separated by commas and
    ended by the carriage return converts back to its values, the first
    seven of them when there are more.
  */
  lemma CommandRoundTrip(xs: seq<int>)
    requires |xs| > 0
    ensures Convert(CommandText(xs) + [CR]) == xs[..Min(|xs|, MaxValues)]
  {
    var ts := seq(|xs|, i requires 0 <= i < |xs| => FormatInt(xs[i]));
    assert forall i :: 0 <= i < |ts| ==> IsToken(ts[i]);
    ConvertJoinedLine(ts);
    forall i | 0 <= i < Min(|xs|, MaxValues)
      ensures Convert(CommandText(xs) + [CR])[i] == xs[i]
    {
      AtoiFormatInt(xs[i], []);
      assert FormatInt(xs[i]) + [] == FormatInt(xs[i]);
    }
  }

  /**
    A comma typed just before the carriage return is not a trailing comma:
    the carriage return after it becomes a token of its own and reads as 0,
    so the command gains a value 0.
  */
  lemma TrailingCommaAddsZero(xs: seq<int>)
    requires |xs| > 0
    ensures Convert(CommandText(xs) + [Comma, CR]) == (xs + [0])[..Min(|xs| + 1, MaxValues)]
  {
    var ts := seq(|xs|, i requires 0 <= i < |xs| => FormatInt(xs[i]));
    assert forall i :: 0 <= i < |ts| ==> IsToken(ts[i]);
    var text := CommandText(xs);
    assert text + [Comma, CR] == text + [Comma] + [CR];
    SplitAtComma(text, [CR]);
    TokensOfJoin(ts);
    SingleToken([CR]);
    AtoiWithoutDigits([CR]);
    ConvertNumerals(text + [Comma, CR], xs, ts + [[CR]]);
  }

  /** A line whose tokens are the numerals of `xs` and then a digit-free token converts to `xs` and 0. */
  lemma ConvertNumerals(line: seq<byte>, xs: seq<int>, us: seq<seq<byte>>)
    requires |us| == |xs| + 1 && Tokens(line) == us
    requires forall i :: 0 <= i < |xs| ==> us[i] == FormatInt(xs[i])
    requires Atoi(us[|xs|]) == 0
    ensures Convert(line) == (xs + [0])[..Min(|xs| + 1, MaxValues)]
  {
    var vs := (xs + [0])[..Min(|xs| + 1, MaxValues)];
    forall i | 0 <= i < |vs|
      ensures Convert(line)[i] == vs[i]
    {
      if i < |xs| {
        AtoiFormatInt(xs[i], []);
        assert FormatInt(xs[i]) + [] == FormatInt(xs[i]);
      }
    }
  }

  /** A line holding nothing but the carriage return yields one value, 0. */
  lemma LoneCarriageReturn()
    ensures Convert([CR]) == [0]
  {
    SingleToken([CR]);
    AtoiWithoutDigits([CR]);
  }

  /**
    A token holding no decimal digit, such as `a`, puts 0 in its slot; the
    other values of the command are read as usual.
  */
  lemma NonNumericTokenReadsAsZero(ts: seq<seq<byte>>, i: nat)
    requires |ts| > 0
    requires forall j :: 0 <= j < |ts| ==> IsToken(ts[j])
    requires i < Min(|ts|, MaxValues)
    requires forall j :: 0 <= j < |ts[i]| ==> !IsDigit(ts[i][j])
    ensures |Convert(Join(ts) + [CR])| == Min(|ts|, MaxValues)
    ensures Convert(Join(ts) + [CR])[i] == 0
  {
    ConvertJoinedLine(ts);
    AtoiWithoutDigits(ts[i]);
  }
}
