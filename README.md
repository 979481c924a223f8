# Serial command parser of a TensorFlow Lite Micro Arduino sketch, in Dafny

The sketch reads a line of comma-separated integers from the serial port,
one byte per pass of `loop()`. When a carriage return arrives, it parses the
line into a 7-slot `int` array with `string_to_array`. If exactly seven
values came back, it quantises them into the model's `int8_t` input tensor,
invokes the model, and prints the output byte divided by 32 as the
prediction. This project models that logic and proves properties of it:

- `strtok.dfy` (module `StrTok`) models `strtok(s, ",")` as a pure split into
  tokens, the non-empty maximal runs without a comma, and one `strtok` call
  as a cursor step (`Strtok`). It proves that repeated calls walk through
  the tokens, that commas at the ends or doubled are skipped, and that
  joining tokens with commas is undone by tokenising.
- `atoi.dfy` (module `AsciiToInt`) models `atoi`: it skips C-locale white
  space, reads one optional sign, then decimal digits up to the first
  non-digit. It proves the value of every such token (white space, an
  optional sign, digits with or without leading zeros, then a non-digit),
  that `atoi` reads back a decimal rendering of any integer, that a trailing
  carriage return is ignored, and that a token with no digit reads as 0.
- `int_list.dfy` (module `IntList`) models `string_to_array` as a method
  with a loop over an `array<cint>`. It returns min(number of tokens, 7) and
  writes `atoi` of token i into slot i for exactly those slots. The line must
  be NUL-terminated, and every converted value must fit a 32-bit `int`; both
  are preconditions. The module also proves the round trip from a typed
  command back to its values.
- `quantization.dfy` (module `Quantization`) models the two conversions in
  `run_inference` as integer functions. The input conversion is
  trunc((85·x − 256)/2). It is defined exactly for x in 0..6, strictly
  increasing there, and invertible there. The prediction is the output byte
  divided by 32, truncated toward zero, so it lies in −4..3.
- `sketch.dfy` (module `Sketch`) models `loop()`. `LoopStep` specifies one
  pass on an abstract state. The class `Sketch` holds the globals
  `in_str_buff`, `in_buff_idx`, `received_char`, `input_array` and the input
  tensor as fields and arrays. Its `Step` method is proved to do exactly what
  `LoopStep` says, while keeping `in_buff_idx` in 0..63 with the buffer zero
  from `in_buff_idx` on.

The serial byte source becomes an `Option<byte>` parameter. The model's
`Invoke` becomes an `InvokeResult` parameter: failure, or success together
with the output byte.

Behaviour of the code worth knowing, which the model keeps:

- A line of more than seven values is accepted: `string_to_array` stops
  at seven and returns 7, so the extra values are ignored
  (`Sketch.CommandOutcome`, `Sketch.TypedCommand`).
- The carriage return is stored in the buffer before the check, so it is
  part of the line handed to `strtok`. After digits it stays in the last
  token, where `atoi` ignores it. After a comma it forms a token of its
  own, worth 0. A line of only a carriage return yields one value, 0.
- A comma typed just before the carriage return is therefore not a
  trailing comma: it adds a value 0. `1,2,3,4,5,6,` followed by the
  carriage return gives seven values, the last one 0, and passes the check
  for seven values (`IntList.TrailingCommaAddsZero`,
  `Sketch.TypedCommandTrailingComma`).
- A carriage return that arrives as the 64th byte fills slot 63, so the
  buffer handed to `strtok` has no terminating NUL, unless a NUL byte came
  earlier. `Sketch.UnterminatedIff` and `Sketch.UnterminatedReachable`
  state this. The model reports it as the outcome
  `UndefinedBehaviour(Unterminated)` instead of parsing.
- The input quantisation truncates toward zero, and outside 0..6 the
  float-to-`int8_t` conversion is undefined. The model reports that as
  `UndefinedBehaviour(QuantizeOutOfRange)`.
- The 64th byte without a carriage return drops the line, that byte
  included.

## Model

| member | source | states |
|---|---|---|
| CTypes.DivTrunc | src/main.cpp:132 | the float-to-integer truncation: the quotient is rounded toward zero, within one divisor of the exact value, and has the dividend's sign or is zero |
| StrTok.Tokens | src/main.cpp:91-94 | every token `strtok` yields is non-empty and holds no comma |
| StrTok.Strtok | src/main.cpp:91-94 | one `strtok` call returns a non-empty comma-free token lying between the saved position and the end of the line, or none |
| StrTok.StrtokAgrees | src/main.cpp:91-94 | calling `strtok` again from the end of the last token gives the next token of the line, and `NULL` exactly when no tokens are left |
| StrTok.SplitAtComma | src/main.cpp:91-94 | the tokens of `a , b` are the tokens of `a` followed by those of `b`: no token spans a comma |
| StrTok.ExtraCommasIgnored | src/main.cpp:91-94 | leading, trailing and doubled commas produce no empty tokens; a comma is trailing only when nothing follows it, which in the sketch the carriage return always does |
| StrTok.TokensOfJoin | src/main.cpp:91-94 | round trip: tokens joined with single commas tokenise back to themselves |
| AsciiToInt.Atoi | src/main.cpp:93 | `atoi` of a token: a negative value only after a leading minus sign, a positive one only without it, and 0 when the first byte after white space is neither a digit nor a sign |
| AsciiToInt.SkipLeading | src/main.cpp:93 | `atoi` skips all leading white space up to the first byte that is not white space |
| AsciiToInt.AtoiSigned | src/main.cpp:93 | white space, a `+` or `-` sign, digits and then any non-digit read as the digits' value, negated after `-` |
| AsciiToInt.AtoiUnsigned | src/main.cpp:93 | white space, one or more digits and then any non-digit read as the digits' value |
| AsciiToInt.LeadingZeroIgnored | src/main.cpp:93 | a leading zero does not change the value of a run of digits, so `007` reads as 7 |
| AsciiToInt.AtoiFormatInt | src/main.cpp:93 | round trip: `atoi` reads back any integer written in decimal with an optional minus sign, whatever non-digit follows |
| AsciiToInt.AtoiIgnoresTrailingNonDigit | src/main.cpp:93 | appending a non-digit, such as the carriage return kept in the last token, does not change what `atoi` reads |
| AsciiToInt.AtoiWithoutDigits | src/main.cpp:93 | a token with no decimal digit (`a`, a lone carriage return) converts to 0 |
| IntList.Convert | src/main.cpp:89-98 | the values `string_to_array` produces: `atoi` of token i in position i; exactly 7 values when the line has 7 or more tokens (the rest are ignored), otherwise one per token |
| IntList.StringToArray | src/main.cpp:89-98 | the count returned is min(number of tokens, 7); slot i < count holds `atoi` of token i; slots from count on are untouched; requires a NUL-terminated line whose converted values fit `int` |
| IntList.TokensOfTypedLine | src/main.cpp:67-72 | the carriage return stored before parsing stays attached to the last token: the tokens of the typed line are the typed tokens, the last one ending in the carriage return |
| IntList.ConvertJoinedLine | src/main.cpp:89-98 | a line of comma-separated tokens ended by a carriage return converts token by token, capped at 7 |
| IntList.CommandRoundTrip | src/main.cpp:89-98 | a command typed as decimal values, commas and a carriage return parses back to its values, the first 7 when there are more |
| IntList.TrailingCommaAddsZero | src/main.cpp:67-72 | a command followed by a comma and the carriage return converts to its values and then a 0, capped at 7: the carriage return after the comma is a token worth 0 |
| IntList.LoneCarriageReturn | src/main.cpp:89-98 | a line holding only the carriage return yields exactly one value, 0 |
| IntList.NonNumericTokenReadsAsZero | src/main.cpp:93 | in a comma-separated line, a token with no decimal digit (such as `a` in `1,a,3`) puts 0 in its slot, with no error |
| Quantization.Quantize | src/main.cpp:120 | the input tensor byte is 42.5·x − 128 truncated toward zero: within half a step of the exact value, never farther from zero |
| Quantization.QuantizeDefinedExactlyOnDomain | src/main.cpp:120 | the truncated value fits `int8_t` if and only if the raw input is in 0..6 |
| Quantization.QuantizeEndpoints | src/main.cpp:120 | raw 0 maps to −128 and raw 6 maps to 127 |
| Quantization.QuantizeStrictlyIncreasing | src/main.cpp:120 | on 0..6 the quantisation is strictly increasing |
| Quantization.UnquantizeInverts | src/main.cpp:120 | on 0..6 no information is lost: the raw input can be recovered from the tensor byte |
| Quantization.Prediction | src/main.cpp:131-132 | the prediction is the output byte divided by 32 truncated toward zero, in −4..3, with the byte's sign |
| Quantization.PredictionMonotone | src/main.cpp:131-132 | a larger output byte never gives a smaller prediction |
| Sketch.ProcessImage | src/main.cpp:70-78 | with `vals` the converted line: undefined behaviour exactly when the buffer holds no NUL, when some value exceeds `int`, or when there are 7 values but one is outside 0..6; otherwise rejected with the count exactly when there are not 7 values, and inference on `vals` with the tensor set to their quantisations exactly when there are 7 in 0..6; `input_array` gets `vals` written to its front whenever parsing is defined, and the tensor changes only when inference runs |
| Sketch.LoopStep | src/main.cpp:63-87 | the index stays in 0..63; no byte means nothing changes; a carriage return always empties the line; another byte is appended, or drops the line exactly when it is the 64th; a count other than 7 is never inferred |
| Sketch.Feed | src/main.cpp:63-87 | a run of passes keeps the index in 0..63 and yields one outcome per byte |
| Sketch.FeedStores | src/main.cpp:64-67 | bytes other than the carriage return, while there is room, are appended with a `Stored` outcome each, the last of them becomes `received_char`, and `input_array` and the tensor stay as they were |
| Sketch.OverflowDropsLine | src/main.cpp:82-85 | 64 bytes without a carriage return from an empty line: 63 are stored, the 64th drops the line, the parser is never reached, and `input_array` and the tensor are untouched |
| Sketch.ImageTerminatedIff | src/main.cpp:67-72 | the buffer handed to `strtok` holds a NUL if and only if the carriage return did not land in slot 63 or a NUL byte came before it |
| Sketch.ParsedLineIsTypedLine | src/main.cpp:67-72 | with room and no NUL typed, the parser sees exactly the typed bytes followed by the carriage return |
| Sketch.UnterminatedIff | src/main.cpp:67-72 | a carriage return hands `strtok` an unterminated buffer exactly when it is the 64th byte after 63 non-NUL bytes |
| Sketch.UnterminatedReachable | src/main.cpp:67-72 | the unterminated case is reachable: 63 ordinary bytes followed by a carriage return |
| Sketch.CommandOutcome | src/main.cpp:72-78 | the outcome of a command stated on its values alone (only the first 7 are used; a value beyond `int` is undefined; fewer than 7 are rejected; a used value outside 0..6 is undefined; otherwise inference): inference runs only on the first 7 values, all in 0..6, of a command of at least 7; a rejection carries the typed count, below 7; a typed command never reaches the unterminated case |
| Sketch.TypedCommand | src/main.cpp:63-87 | from an empty line, typing any non-empty list of integers in decimal, separated by commas, that fits the buffer, and then a carriage return gives exactly `CommandOutcome` of the list |
| Sketch.TypedCommandTrailingComma | src/main.cpp:63-87 | from an empty line, a command followed by a comma and the carriage return gives `CommandOutcome` of the values with a 0 appended, so six values in 0..6 and a comma run inference |
| Sketch.QuantizeAll | src/main.cpp:119-121 | slot i of the input tensor holds the quantisation of value i, and value i can be recovered from it |
| Sketch.Sketch.constructor | src/main.cpp:30-34 | the globals start zeroed: empty line, index 0, zero arrays |
| Sketch.Sketch.ClearBuffer | src/main.cpp:80 | `memset` leaves all 64 bytes of the buffer zero |
| Sketch.Sketch.RunInference | src/main.cpp:109-132 | the tensor receives the quantisation of each of the 7 values; the prediction is present exactly when `Invoke` succeeded |
| Sketch.Sketch.ProcessLine | src/main.cpp:70-78 | updates `input_array` and the tensor, and returns the outcome, exactly as `ProcessImage` specifies for the buffer |
| Sketch.Sketch.Step | src/main.cpp:63-87 | one pass of `loop()` on the arrays matches `LoopStep` on the old state, and keeps the index in 0..63 with the rest of the buffer zero |

## Left out

- Serial output is left out: the echo of each byte, the messages, `print_int_array` and the prediction and timing lines. The prediction value itself is modelled.
- `micros()` timing and `delay` are left out; they read the hardware clock.
- The inference library is left out: `GetModel`, the schema-version check, the `MicroInterpreter`, `AllocateTensors`, the tensor handles and the two fatal `while (1);` halts in `setup()`. `Invoke` and the output byte it produces become the `InvokeResult` parameter. The input tensor is an array that the model owns.
- `sum_array` and `measure_time` are declared but never defined or called.
- `strtok` writes a NUL over the comma that ends each token it returns; leading and doubled commas it skips stay as they are. The model's parser reads the line without changing it. `loop()` clears the whole buffer right after parsing, so nothing observes the difference.
- Undefined behaviour is reported, not modelled. Three cases stop the pass with an `UndefinedBehaviour` outcome: a buffer with no NUL, an `atoi` value beyond a 32-bit `int`, and a value outside 0..6 reaching the `int8_t` cast. The model still clears the buffer afterwards, as the code would if the undefined step returned. An `atoi` overflow leaves `input_array` unchanged in the model; the C code might already have written earlier slots.
- `int` is taken as 32 bits, the width on the ARM boards this library targets. `char` is taken as an unsigned byte.
- Float arithmetic in general is left out. The two conversions are exact on their domains and are modelled as integer arithmetic.
- Sketch.Sketch.RunInference: assumes `Invoke` does not write the input tensor, so the tensor after the call is the quantised input; `Sketch.Sketch.ProcessLine` and `Sketch.Sketch.Step` state the new tensor under the same assumption. The inference library is not part of this model.
