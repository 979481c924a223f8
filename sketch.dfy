/**
  The sketch's `loop()`: one pass polls the serial port for at most one
  byte, stores it in the 64-byte line buffer and, on a carriage return,
  hands the buffer to `string_to_array`, runs inference when exactly seven
  values came back, and clears the buffer; a buffer that fills up without a
  carriage return is cleared silently.

  `LoopStep` is the specification of one pass on an abstract state; the
  class `Sketch` holds the sketch's global buffers as arrays and its
  `Step` method is proved to do what `LoopStep` says.
*/
module Sketch {
  import opened CTypes
  import opened StrTok
  import opened AsciiToInt
  import opened IntList
  import opened Quantization

  /** `INPUT_BUFFER_SIZE`: the bytes of `in_str_buff`. */
  const BufferSize: nat := 64

  /** What the inference library's `Invoke` did: failed, or succeeded with this output byte. */
  datatype InvokeResult = InvokeFailed | InvokeOk(output: int8)

  /**
    The three ways a pass can reach C undefined behaviour: `strtok` handed a
    buffer without a NUL, `atoi` handed a number beyond `int`, and the cast to
    `int8_t` handed a value beyond it.
  */
  datatype Undefined = Unterminated | AtoiOverflow | QuantizeOutOfRange

  /** What one pass of `loop()` did. */
  datatype Outcome =
    | NoByte                                             // nothing was available on the serial port
    | Stored                                             // the byte was added to the line
    | Overflow                                           // the line filled the buffer and was dropped
    | Rejected(count: nat)                               // a line whose value count is not seven
    | Inferred(values: seq<int>, prediction: Option<int8>) // inference ran; None when `Invoke` failed
    | UndefinedBehaviour(cause: Undefined)

  /**
    The sketch's globals: the bytes of the current line (`in_str_buff` up to
    `in_buff_idx`; the rest of the buffer is zero), `received_char`, the
    seven slots of `input_array` and the seven bytes of the input tensor.
  */
  datatype LoopState = LoopState(pending: seq<byte>, received: byte, inputs: seq<cint>, tensor: seq<int8>)

  /** `in_buff_idx` stays below the buffer size, and the two 7-slot arrays keep their size. */
  predicate Good(s: LoopState) {
    |s.pending| < BufferSize && |s.inputs| == MaxValues && |s.tensor| == MaxValues
  }

  function Zeros(n: nat): (z: seq<byte>)
    ensures |z| == n && forall i :: 0 <= i < n ==> z[i] == Nul
  {
    seq(n, _ => Nul)
  }

  /** The whole buffer right after byte `b` has been stored behind the pending bytes. */
  function Image(pending: seq<byte>, b: byte): (buf: seq<byte>)
    requires |pending| < BufferSize
    ensures |buf| == BufferSize
  {
    pending + [b] + Zeros(BufferSize - 1 - |pending|)
  }

  /** `input_array` after `string_to_array` wrote `vals` to its front. */
  function Overwrite(inputs: seq<cint>, vals: seq<int>): (r: seq<cint>)
    requires |vals| <= |inputs|
    requires forall i :: 0 <= i < |vals| ==> FitsInt(vals[i])
    ensures |r| == |inputs|
    ensures forall i :: 0 <= i < |vals| ==> r[i] == vals[i]
    ensures forall i :: |vals| <= i < |inputs| ==> r[i] == inputs[i]
  {
    seq(|inputs|, i requires 0 <= i < |inputs| && (i < |vals| ==> FitsInt(vals[i])) =>
      if i < |vals| then vals[i] as cint else inputs[i])
  }

  predicate AllFit(vals: seq<int>) {
    forall i :: 0 <= i < |vals| ==> FitsInt(vals[i])
  }

  predicate AllQuantizable(vals: seq<int>) {
    forall i :: 0 <= i < |vals| ==> 0 <= vals[i] <= InputMax
  }

  /** The input tensor after the quantising loop of `run_inference`. */
  function QuantizeAll(vals: seq<int>): (t: seq<int8>)
    requires AllQuantizable(vals)
    ensures |t| == |vals|
    ensures forall i :: 0 <= i < |vals| ==> t[i] == Quantize(vals[i]) && Unquantize(t[i]) == vals[i]
  {
    UnquantizeEach(vals);
    seq(|vals|, i requires 0 <= i < |vals| => Quantize(vals[i]))
  }

  lemma UnquantizeEach(vals: seq<int>)
    requires AllQuantizable(vals)
    ensures forall i :: 0 <= i < |vals| ==> Unquantize(Quantize(vals[i])) == vals[i]
  {
    forall i | 0 <= i < |vals|
      ensures Unquantize(Quantize(vals[i])) == vals[i]
    {
      UnquantizeInverts(vals[i]);
    }
  }

  function PredictionOf(invoke: InvokeResult): Option<int8> {
    match invoke
    case InvokeFailed => None
    case InvokeOk(out) => Some(Prediction(out))
  }

  /**
    Lines 70-78 of `loop()` on the buffer image: parse, check the count,
    and run inference. Returns the outcome, `input_array` and the input tensor.
  */
  function ProcessImage(buf: seq<byte>, inputs: seq<cint>, tensor: seq<int8>, invoke: InvokeResult)
    : (r: (Outcome, seq<cint>, seq<int8>))
    requires |inputs| == MaxValues && |tensor| == MaxValues
    ensures |r.1| == MaxValues && |r.2| == MaxValues
    ensures r.0.Inferred? ==>
      |r.0.values| == MaxValues && AllQuantizable(r.0.values) && r.2 == QuantizeAll(r.0.values)
    ensures r.0.Rejected? ==> r.0.count != MaxValues && r.0.count < MaxValues
    ensures r.0 !in {NoByte, Stored, Overflow}
    ensures !IsCString(buf) <==> r.0 == UndefinedBehaviour(Unterminated)
    ensures IsCString(buf) ==>
      var vals := Convert(CString(buf));
      && (!AllFit(vals) <==> r.0 == UndefinedBehaviour(AtoiOverflow))
      && (AllFit(vals) ==> r.1 == Overwrite(inputs, vals))
      && (AllFit(vals) ==> (|vals| != MaxValues <==> r.0 == Rejected(|vals|)))
      && ((r.0 == UndefinedBehaviour(QuantizeOutOfRange))
            <==> AllFit(vals) && |vals| == MaxValues && !AllQuantizable(vals))
      && (r.0.Inferred? <==> AllFit(vals) && |vals| == MaxValues && AllQuantizable(vals))
      && (r.0.Inferred? ==> r.0.values == vals && r.0.prediction == PredictionOf(invoke))
    ensures !(IsCString(buf) && AllFit(Convert(CString(buf)))) ==> r.1 == inputs
    ensures !r.0.Inferred? ==> r.2 == tensor
  {
    if !IsCString(buf) then (UndefinedBehaviour(Unterminated), inputs, tensor)
    else
      var vals := Convert(CString(buf));
      if !AllFit(vals) then (UndefinedBehaviour(AtoiOverflow), inputs, tensor)
      else
        var inputs' := Overwrite(inputs, vals);
        if |vals| != MaxValues then (Rejected(|vals|), inputs', tensor)
        else if !AllQuantizable(vals) then (UndefinedBehaviour(QuantizeOutOfRange), inputs', tensor)
        else (Inferred(vals, PredictionOf(invoke)), inputs', QuantizeAll(vals))
  }

  /** One pass of `loop()`, with `incoming` the byte `Serial.read()` returned, if any. */
  function LoopStep(s: LoopState, incoming: Option<byte>, invoke: InvokeResult): (r: (Outcome, LoopState))
    requires Good(s)
    ensures Good(r.1)
    ensures incoming.None? ==> r == (NoByte, s)
    ensures incoming == Some(CR) ==> r.1.pending == [] && r.0 !in {NoByte, Stored, Overflow}
    ensures incoming.Some? && incoming.value != CR ==>
      && r.1.inputs == s.inputs && r.1.tensor == s.tensor
      && (r.0 == Overflow <==> |s.pending| == BufferSize - 1)
      && r.1.pending == (if r.0 == Overflow then [] else s.pending + [incoming.value])
    ensures r.0.Inferred? ==> |r.0.values| == MaxValues
    ensures r.0.Rejected? ==> r.0.count != MaxValues
  {
    match incoming
    case None => (NoByte, s)
    case Some(b) =>
      if b == CR then
        var (o, inputs, tensor) := ProcessImage(Image(s.pending, b), s.inputs, s.tensor, invoke);
        (o, LoopState([], b, inputs, tensor))
      else if |s.pending| + 1 >= BufferSize then
        (Overflow, s.(pending := [], received := b))
      else
        (Stored, s.(pending := s.pending + [b], received := b))
  }

  /** Several passes, each of which finds the next byte available. */
  function Feed(s: LoopState, bytes: seq<byte>, invoke: InvokeResult): (r: (LoopState, seq<Outcome>))
    requires Good(s)
    ensures Good(r.0) && |r.1| == |bytes|
    decreases |bytes|
  {
    if bytes == [] then (s, [])
    else
      var (o, s') := LoopStep(s, Some(bytes[0]), invoke);
      var (s'', os) := Feed(s', bytes[1..], invoke);
      (s'', [o] + os)
  }

  lemma {:induction false} FeedConcat(s: LoopState, a: seq<byte>, b: seq<byte>, invoke: InvokeResult)
    requires Good(s)
    ensures var (sa, oa) := Feed(s, a, invoke);
      var (sb, ob) := Feed(sa, b, invoke);
      Feed(s, a + b, invoke) == (sb, oa + ob)
    decreases |a|
  {
    if a != [] {
      var (o, s') := LoopStep(s, Some(a[0]), invoke);
      assert (a + b)[0] == a[0];
      assert (a + b)[1..] == a[1..] + b;
      FeedConcat(s', a[1..], b, invoke);
      var (sa, oa) := Feed(s', a[1..], invoke);
      var ob := Feed(sa, b, invoke).1;
      assert [o] + (oa + ob) == ([o] + oa) + ob;
    } else {
      assert a + b == b;
      assert [] + Feed(s, b, invoke).1 == Feed(s, b, invoke).1;
    }
  }

  /**
    Bytes other than the carriage return, while the buffer has room, are
    appended, the last of them is the byte last received, and `input_array`
    and the tensor stay as they were.
  */
  lemma {:induction false} FeedStores(s: LoopState, bytes: seq<byte>, invoke: InvokeResult)
    requires Good(s) && CR !in bytes && |s.pending| + |bytes| < BufferSize
    ensures Feed(s, bytes, invoke).0.pending == s.pending + bytes
    ensures Feed(s, bytes, invoke).0.inputs == s.inputs && Feed(s, bytes, invoke).0.tensor == s.tensor
    ensures bytes != [] ==> Feed(s, bytes, invoke).0.received == bytes[|bytes| - 1]
    ensures forall i :: 0 <= i < |bytes| ==> Feed(s, bytes, invoke).1[i] == Stored
    decreases |bytes|
  {
    if bytes != [] {
      var (o, s') := LoopStep(s, Some(bytes[0]), invoke);
      assert bytes[0] in bytes;
      assert CR !in bytes[1..] by {
        forall i | 0 <= i < |bytes| - 1 ensures bytes[1..][i] != CR {
          assert bytes[1..][i] == bytes[i + 1];
        }
      }
      FeedStores(s', bytes[1..], invoke);
      assert s.pending + bytes == s'.pending + bytes[1..];
      if |bytes| > 1 {
        assert bytes[1..][|bytes| - 2] == bytes[|bytes| - 1];
      }
    }
  }

  /**
    Sixty-four bytes without a carriage return, from an empty line: the first
    63 are stored, the 64th drops the line, the parser is never reached, and
    `input_array` and the tensor are untouched.
  */
  lemma OverflowDropsLine(s: LoopState, bytes: seq<byte>, invoke: InvokeResult)
    requires Good(s) && s.pending == [] && |bytes| == BufferSize && CR !in bytes
    ensures Feed(s, bytes, invoke).0.pending == []
    ensures Feed(s, bytes, invoke).0.inputs == s.inputs && Feed(s, bytes, invoke).0.tensor == s.tensor
    ensures forall i :: 0 <= i < BufferSize - 1 ==> Feed(s, bytes, invoke).1[i] == Stored
    ensures Feed(s, bytes, invoke).1[BufferSize - 1] == Overflow
  {
    var a, b := bytes[..BufferSize - 1], bytes[BufferSize - 1..];
    assert a + b == bytes;
    assert CR !in a by {
      forall i | 0 <= i < |a| ensures a[i] != CR {
        assert a[i] == bytes[i];
      }
    }
    assert bytes[BufferSize - 1] in bytes;
    FeedStores(s, a, invoke);
    FeedConcat(s, a, b, invoke);
    var sa := Feed(s, a, invoke).0;
    assert b[1..] == [];
    assert Feed(sa, b, invoke).1 == [Overflow];
  }

  /** The buffer image holds a NUL, so `strtok` stays inside it, unless the carriage return took the last slot after 63 non-NUL bytes. */
  lemma ImageTerminatedIff(pending: seq<byte>)
    requires |pending| < BufferSize
    ensures IsCString(Image(pending, CR)) <==> |pending| < BufferSize - 1 || Nul in pending
  {
    var buf := Image(pending, CR);
    if |pending| < BufferSize - 1 {
      assert buf[BufferSize - 1] == Nul;
    } else if Nul in pending {
      var k :| 0 <= k < |pending| && pending[k] == Nul;
      assert buf[k] == Nul;
    } else {
      assert buf == pending + [CR];
    }
  }

  /**
    The line the parser sees, when no NUL byte was received and the buffer
    had room: the bytes typed, followed by the carriage return.
  */
  lemma ParsedLineIsTypedLine(pending: seq<byte>)
    requires |pending| < BufferSize - 1 && Nul !in pending
    ensures IsCString(Image(pending, CR)) && CString(Image(pending, CR)) == pending + [CR]
  {
    var buf := Image(pending, CR);
    ImageTerminatedIff(pending);
    assert buf[..|pending| + 1] == pending + [CR];
    assert buf[|pending| + 1] == Nul;
  }

  /** A carriage return reaches undefined behaviour in `strtok` exactly when it lands in the last slot after 63 non-NUL bytes. */
  lemma UnterminatedIff(s: LoopState, invoke: InvokeResult)
    requires Good(s)
    ensures LoopStep(s, Some(CR), invoke).0 == UndefinedBehaviour(Unterminated)
        <==> |s.pending| == BufferSize - 1 && Nul !in s.pending
  {
    ImageTerminatedIff(s.pending);
  }

  /**
    The flaw is reachable: from an empty line, 63 bytes that are neither NUL
    nor carriage return followed by a carriage return hand `strtok` a buffer
    with no terminator.
  */
  lemma UnterminatedReachable(s: LoopState, bytes: seq<byte>, invoke: InvokeResult)
    requires Good(s) && s.pending == [] && |bytes| == BufferSize - 1 && CR !in bytes && Nul !in bytes
    ensures LoopStep(Feed(s, bytes, invoke).0, Some(CR), invoke).0 == UndefinedBehaviour(Unterminated)
  {
    FeedStores(s, bytes, invoke);
    UnterminatedIff(Feed(s, bytes, invoke).0, invoke);
  }

  /** A byte a typed command is made of: a decimal digit, a minus sign or a comma. */
  predicate CommandByte(b: byte) {
    IsDigit(b) || b == Minus || b == Comma
  }

  /** Numerals joined by commas hold nothing but digits, minus signs and commas. */
  lemma {:induction false} JoinOfNumerals(ts: seq<seq<byte>>)
    requires forall i, k :: 0 <= i < |ts| && 0 <= k < |ts[i]| ==> IsDigit(ts[i][k]) || ts[i][k] == Minus
    ensures forall k :: 0 <= k < |Join(ts)| ==> CommandByte(Join(ts)[k])
  {
    if |ts| == 1 {
      forall k | 0 <= k < |Join(ts)|
        ensures CommandByte(Join(ts)[k])
      {
        assert Join(ts)[k] == ts[0][k];
      }
    } else if |ts| > 1 {
      var tail := ts[1..];
      forall i, k | 0 <= i < |tail| && 0 <= k < |tail[i]|
        ensures IsDigit(tail[i][k]) || tail[i][k] == Minus
      {
        assert tail[i] == ts[i + 1];
      }
      JoinOfNumerals(tail);
      var j := Join(tail);
      assert Join(ts) == ts[0] + [Comma] + j;
      forall k | 0 <= k < |Join(ts)|
        ensures CommandByte(Join(ts)[k])
      {
        if k < |ts[0]| {
          assert Join(ts)[k] == ts[0][k];
        } else if k > |ts[0]| {
          assert Join(ts)[k] == j[k - |ts[0]| - 1];
        }
      }
    }
  }

  /** A typed command holds neither a NUL nor a carriage return. */
  lemma CommandTextBytes(xs: seq<int>)
    ensures Nul !in CommandText(xs) && CR !in CommandText(xs)
  {
    var ts := seq(|xs|, i requires 0 <= i < |xs| => FormatInt(xs[i]));
    forall i, k | 0 <= i < |ts| && 0 <= k < |ts[i]|
      ensures IsDigit(ts[i][k]) || ts[i][k] == Minus
    {
      var t := FormatInt(xs[i]);
      assert ts[i] == t;
      if k > 0 {
        assert IsDigit(t[k]);
      }
    }
    JoinOfNumerals(ts);
    var text := CommandText(xs);
    forall k | 0 <= k < |text|
      ensures text[k] != Nul && text[k] != CR
    {
      assert CommandByte(text[k]);
    }
  }

  /**
    What the sketch reports for a command of the values `xs`, stated on the
    values themselves: only the first seven are converted; a value beyond
    `int` is undefined in `atoi`; fewer than seven are rejected; a value
    outside 0..6 is undefined in the cast; otherwise inference runs.
  */
  function CommandOutcome(xs: seq<int>, invoke: InvokeResult): (r: Outcome)
    ensures r.Inferred? ==> |xs| >= MaxValues && r.values == xs[..MaxValues] && AllQuantizable(r.values)
    ensures r.Rejected? ==> r.count == |xs| < MaxValues
    ensures r.UndefinedBehaviour? ==> r.cause != Unterminated
  {
    var vals := xs[..Min(|xs|, MaxValues)];
    if !AllFit(vals) then UndefinedBehaviour(AtoiOverflow)
    else if |xs| < MaxValues then Rejected(|xs|)
    else if !AllQuantizable(vals) then UndefinedBehaviour(QuantizeOutOfRange)
    else Inferred(vals, PredictionOf(invoke))
  }

  /**
    End to end: from an empty line, typing integers in decimal separated by
    commas and then a carriage return gives `CommandOutcome` of them, as long
    as the line leaves room for the carriage return and a NUL. In
    particular, a command of more than seven values in 0..6 runs inference
    on the first seven.
  */
  lemma TypedCommand(s: LoopState, xs: seq<int>, invoke: InvokeResult)
    requires Good(s) && s.pending == []
    requires 0 < |xs| && |CommandText(xs)| < BufferSize - 1
    ensures var s' := Feed(s, CommandText(xs), invoke).0;
      LoopStep(s', Some(CR), invoke).0 == CommandOutcome(xs, invoke)
  {
    var text := CommandText(xs);
    CommandTextBytes(xs);
    FeedStores(s, text, invoke);
    var s' := Feed(s, text, invoke).0;
    assert s'.pending == text;
    ProcessTypedCommand(xs, s'.inputs, s'.tensor, invoke);
  }

  /** The parsing and inference half of `TypedCommand`, on the buffer image the carriage return completes. */
  lemma ProcessTypedCommand(xs: seq<int>, inputs: seq<cint>, tensor: seq<int8>, invoke: InvokeResult)
    requires |inputs| == MaxValues && |tensor| == MaxValues
    requires 0 < |xs| && |CommandText(xs)| < BufferSize - 1
    ensures ProcessImage(Image(CommandText(xs), CR), inputs, tensor, invoke).0 == CommandOutcome(xs, invoke)
  {
    var text := CommandText(xs);
    CommandTextBytes(xs);
    ParsedLineIsTypedLine(text);
    CommandRoundTrip(xs);
    var vals := Convert(text + [CR]);
    assert vals == xs[..Min(|xs|, MaxValues)];
  }

  /**
    End to end: a command ended by a comma and then the carriage return is
    handled as if a value 0 had been typed after it. In particular six values
    in 0..6 followed by a comma pass the check for seven values.
  */
  lemma TypedCommandTrailingComma(s: LoopState, xs: seq<int>, invoke: InvokeResult)
    requires Good(s) && s.pending == []
    requires 0 < |xs| && |CommandText(xs)| < BufferSize - 2
    ensures var s' := Feed(s, CommandText(xs) + [Comma], invoke).0;
      LoopStep(s', Some(CR), invoke).0 == CommandOutcome(xs + [0], invoke)
  {
    var text := CommandText(xs) + [Comma];
    CommandTextBytes(xs);
    assert Nul !in text && CR !in text;
    FeedStores(s, text, invoke);
    var s' := Feed(s, text, invoke).0;
    assert s'.pending == text;
    ProcessTrailingComma(xs, s'.inputs, s'.tensor, invoke);
  }

  /** The parsing and inference half of `TypedCommandTrailingComma`. */
  lemma ProcessTrailingComma(xs: seq<int>, inputs: seq<cint>, tensor: seq<int8>, invoke: InvokeResult)
    requires |inputs| == MaxValues && |tensor| == MaxValues
    requires 0 < |xs| && |CommandText(xs)| < BufferSize - 2
    ensures ProcessImage(Image(CommandText(xs) + [Comma], CR), inputs, tensor, invoke).0
        == CommandOutcome(xs + [0], invoke)
  {
    var text := CommandText(xs) + [Comma];
    CommandTextBytes(xs);
    assert Nul !in text;
    ParsedLineIsTypedLine(text);
    assert text + [CR] == CommandText(xs) + [Comma, CR];
    TrailingCommaAddsZero(xs);
  }

  /**
    The sketch's global state. `inStrBuff` and `inBuffIdx` are the line
    buffer and its write index, `receivedChar` the last byte read,
    `inputArray` the values of the last command and `inputTensor` the
    model's input tensor, which the inference library owns.
  */
  class Sketch {
    const inStrBuff: array<byte>
    var inBuffIdx: int
    var receivedChar: byte
    const inputArray: array<cint>
    const inputTensor: array<int8>

    ghost predicate Valid()
      reads this, inStrBuff
    {
      && inStrBuff.Length == BufferSize
      && 0 <= inBuffIdx < BufferSize
      && (forall k :: inBuffIdx <= k < BufferSize ==> inStrBuff[k] == Nul)
      && inputArray.Length == MaxValues
      && inputTensor.Length == MaxValues
    }

    ghost function State(): (s: LoopState)
      reads this, inStrBuff, inputArray, inputTensor
      requires Valid()
      ensures Good(s)
    {
      LoopState(inStrBuff[..inBuffIdx], receivedChar, inputArray[..], inputTensor[..])
    }

    /** The globals as `setup()` leaves them: everything zero. */
    constructor ()
      ensures Valid() && fresh(inStrBuff) && fresh(inputArray) && fresh(inputTensor)
      ensures State() == LoopState([], Nul, seq(MaxValues, _ => 0), seq(MaxValues, _ => 0))
    {
      inStrBuff := new byte[BufferSize](_ => Nul);
      inBuffIdx := 0;
      receivedChar := Nul;
      inputArray := new cint[MaxValues](_ => 0);
      inputTensor := new int8[MaxValues](_ => 0);
    }

    /** `memset(in_str_buff, 0, INPUT_BUFFER_SIZE)`. */
    method ClearBuffer()
      requires inStrBuff.Length == BufferSize
      modifies inStrBuff
      ensures inStrBuff[..] == Zeros(BufferSize)
    {
      for k := 0 to BufferSize
        invariant forall j :: 0 <= j < k ==> inStrBuff[j] == Nul
      {
        inStrBuff[k] := Nul;
      }
    }

    /**
      `run_inference` without its printing and timing: quantise `input_array`
      into the input tensor, invoke the model, and turn its output byte into
      the prediction.
    */
    method RunInference(invoke: InvokeResult) returns (prediction: Option<int8>)
      requires inputArray.Length == MaxValues && inputTensor.Length == MaxValues
      requires AllQuantizable(inputArray[..])
      modifies inputTensor
      ensures inputTensor[..] == QuantizeAll(inputArray[..])
      ensures prediction == PredictionOf(invoke)
    {
      for i := 0 to MaxValues
        invariant forall j :: 0 <= j < i ==> inputTensor[j] == Quantize(inputArray[j])
      {
        assert inputArray[..][i] == inputArray[i];
        inputTensor[i] := Quantize(inputArray[i]);
      }
      match invoke {
        case InvokeFailed =>
          prediction := None;
        case InvokeOk(out) =>
          prediction := Some(Prediction(out));
      }
    }

    /**
      Lines 70-78 of `loop()`. The checks for undefined behaviour are the
      model's: the sketch itself goes on into `strtok`, `atoi` or the cast.
    */
    method ProcessLine(invoke: InvokeResult) returns (outcome: Outcome)
      requires inStrBuff.Length == BufferSize
      requires inputArray.Length == MaxValues && inputTensor.Length == MaxValues
      modifies inputArray, inputTensor
      ensures (outcome, inputArray[..], inputTensor[..])
           == ProcessImage(inStrBuff[..], old(inputArray[..]), old(inputTensor[..]), invoke)
    {
      if !IsCString(inStrBuff[..]) {
        return UndefinedBehaviour(Unterminated);
      }
      var vals := Convert(CString(inStrBuff[..]));
      if !AllFit(vals) {
        return UndefinedBehaviour(AtoiOverflow);
      }
      var count := StringToArray(inStrBuff, inputArray);
      assert inputArray[..] == Overwrite(old(inputArray[..]), vals);
      if count != MaxValues {
        return Rejected(count);
      }
      assert inputArray[..] == vals;
      if !AllQuantizable(vals) {
        return UndefinedBehaviour(QuantizeOutOfRange);
      }
      var prediction := RunInference(invoke);
      outcome := Inferred(vals, prediction);
    }

    /** One pass of `loop()`. */
    method Step(incoming: Option<byte>, invoke: InvokeResult) returns (outcome: Outcome)
      requires Valid()
      modifies this, inStrBuff, inputArray, inputTensor
      ensures Valid()
      ensures (outcome, State()) == LoopStep(old(State()), incoming, invoke)
    {
      if incoming.None? {
        return NoByte;
      }
      var b := incoming.value;
      ghost var pending := inStrBuff[..inBuffIdx];
      receivedChar := b;
      inStrBuff[inBuffIdx] := b;
      inBuffIdx := inBuffIdx + 1;
      assert inStrBuff[..] == Image(pending, b);
      if b == CR {
        outcome := ProcessLine(invoke);
        ClearBuffer();
        inBuffIdx := 0;
      } else if inBuffIdx >= BufferSize {
        ClearBuffer();
        inBuffIdx := 0;
        outcome := Overflow;
      } else {
        outcome := Stored;
        assert inStrBuff[..inBuffIdx] == pending + [b];
      }
    }
  }
}
