/**
  `strtok(s, ",")` as a pure function. A line is cut into its tokens: the
  non-empty, maximal runs of bytes that hold no comma. Commas at the start,
  at the end or next to each other produce no empty token.
*/
module StrTok {
  import opened CTypes

  /** A token as `strtok` can return it: non-empty and free of the delimiter. */
  predicate IsToken(t: seq<byte>) {
    |t| > 0 && Comma !in t
  }

  /** Length of the comma-free run at the front of `s`. */
  function RunLength(s: seq<byte>): (k: nat)
    ensures k <= |s|
    ensures forall i :: 0 <= i < k ==> s[i] != Comma
    ensures k < |s| ==> s[k] == Comma
  {
    if s == [] || s[0] == Comma then 0 else 1 + RunLength(s[1..])
  }

  /** The tokens of a line, in order. */
  function Tokens(s: seq<byte>): (ts: seq<seq<byte>>)
    ensures forall i :: 0 <= i < |ts| ==> IsToken(ts[i])
    decreases |s|
  {
    if s == [] then []
    else if s[0] == Comma then Tokens(s[1..])
    else
      var k := RunLength(s);
      [s[..k]] + Tokens(s[k..])
  }

  /** The position of one token inside the scanned line, `start` inclusive and `end` exclusive. */
  datatype Span = Span(start: nat, end: nat)

  /**
    One call of `strtok`: from the saved position `from`, skip commas and
    return the next token, or `None` at the end of the line. The library
    overwrites the comma that ends the token with a NUL and resumes one past
    it; resuming at `end` itself finds the same next token, because the
    byte there is that comma or the end of the line.
  */
  function Strtok(s: seq<byte>, from: nat): (r: Option<Span>)
    requires from <= |s|
    ensures r.Some? ==> from <= r.value.start < r.value.end <= |s|
    ensures r.Some? ==> IsToken(s[r.value.start..r.value.end])
    decreases |s| - from
  {
    if from == |s| then None
    else if s[from] == Comma then Strtok(s, from + 1)
    else Some(Span(from, from + RunLength(s[from..])))
  }

  /** A repeated `strtok` walks exactly through `Tokens`, one token per call. */
  lemma {:induction false} StrtokAgrees(s: seq<byte>, from: nat)
    requires from <= |s|
    ensures Strtok(s, from).None? ==> Tokens(s[from..]) == []
    ensures Strtok(s, from).Some? ==>
      var sp := Strtok(s, from).value;
      Tokens(s[from..]) == [s[sp.start..sp.end]] + Tokens(s[sp.end..])
    decreases |s| - from
  {
    if from == |s| {
      assert s[from..] == [];
    } else if s[from] == Comma {
      StrtokAgrees(s, from + 1);
      assert s[from..][1..] == s[from + 1..];
    } else {
      var k := RunLength(s[from..]);
      assert s[from..][..k] == s[from..from + k];
      assert s[from..][k..] == s[from + k..];
    }
  }

  /** The inverse of `Tokens`: the tokens written out with one comma between neighbours. */
  function Join(ts: seq<seq<byte>>): seq<byte> {
    if |ts| == 0 then []
    else if |ts| == 1 then ts[0]
    else ts[0] + [Comma] + Join(ts[1..])
  }

  lemma {:induction false} RunLengthStopsAtComma(a: seq<byte>, b: seq<byte>)
    ensures RunLength(a + [Comma] + b) == RunLength(a)
  {
    if a != [] && a[0] != Comma {
      RunLengthStopsAtComma(a[1..], b);
      assert (a + [Comma] + b)[1..] == a[1..] + [Comma] + b;
    }
  }

  /** Cutting a line at any comma cuts its token list there: no token spans a comma, none is lost. */
  lemma {:induction false} SplitAtComma(a: seq<byte>, b: seq<byte>)
    ensures Tokens(a + [Comma] + b) == Tokens(a) + Tokens(b)
    decreases |a|
  {
    var u := a + [Comma] + b;
    if a == [] {
      assert u[1..] == b;
    } else if a[0] == Comma {
      SplitAtComma(a[1..], b);
      assert u[1..] == a[1..] + [Comma] + b;
    } else {
      var k := RunLength(a);
      RunLengthStopsAtComma(a, b);
      assert u[..k] == a[..k];
      assert u[k..] == a[k..] + [Comma] + b;
      SplitAtComma(a[k..], b);
    }
  }

  /** Leading, trailing and doubled commas are skipped. */
  lemma ExtraCommasIgnored(a: seq<byte>, b: seq<byte>)
    ensures Tokens([Comma] + a) == Tokens(a)
    ensures Tokens(a + [Comma]) == Tokens(a)
    ensures Tokens(a + [Comma, Comma] + b) == Tokens(a + [Comma] + b)
  {
    SplitAtComma([], a);
    assert [] + [Comma] + a == [Comma] + a;
    SplitAtComma(a, []);
    assert a + [Comma] + [] == a + [Comma];
    SplitAtComma(a, [Comma] + b);
    assert a + [Comma] + ([Comma] + b) == a + [Comma, Comma] + b;
    SplitAtComma([], b);
    assert [] + [Comma] + b == [Comma] + b;
    SplitAtComma(a, b);
  }

  lemma SingleToken(t: seq<byte>)
    requires IsToken(t)
    ensures Tokens(t) == [t]
  {
    assert RunLength(t) == |t|;
    assert t[..|t|] == t;
    assert t[|t|..] == [];
  }

  /** Round trip: joining tokens with commas and tokenising gives the tokens back. */
  lemma {:induction false} TokensOfJoin(ts: seq<seq<byte>>)
    requires forall i :: 0 <= i < |ts| ==> IsToken(ts[i])
    ensures Tokens(Join(ts)) == ts
  {
    if |ts| == 1 {
      SingleToken(ts[0]);
    } else if |ts| > 1 {
      SplitAtComma(ts[0], Join(ts[1..]));
      SingleToken(ts[0]);
      TokensOfJoin(ts[1..]);
    }
  }

  /** Appending bytes to the joined line appends them to its last token. */
  lemma {:induction false} JoinExtendsLast(ts: seq<seq<byte>>, e: seq<byte>)
    requires |ts| > 0
    ensures Join(ts[..|ts| - 1] + [ts[|ts| - 1] + e]) == Join(ts) + e
  {
    var ts' := ts[..|ts| - 1] + [ts[|ts| - 1] + e];
    if |ts| > 1 {
      JoinExtendsLast(ts[1..], e);
      assert ts'[0] == ts[0];
      assert ts'[1..] == ts[1..][..|ts| - 2] + [ts[1..][|ts| - 2] + e];
    }
  }
}
