# B3 single-format codec

A Dafny model of Brave's B3 single-header codec, `B3SingleFormat`. It carries a trace
identity across a process boundary as one compact value:

    {trace-id}-{span-id}[-{sampling}][-{parent-id}]      or a bare 0, 1 or d

- The trace id is 16 lower-hex characters, or 32 when the high half is set.
- The span and parent ids are 16 lower-hex characters.
- The sampling character is `0` (not sampled), `1` (sampled) or `d` (debug).

Writing turns a `TraceContext` into that string, or into its bytes. A second variant
leaves the parent id out.

Parsing reads the window `[begin, end)` of a larger string. On success it returns a
context, or only a sampling decision for a bare `0`, `1` or `d`. Parsing never throws.
Each rejection returns null and hands exactly one diagnostic to the platform logger.
The diagnostic carries a fixed message template and, where the template has `{0}`, an
offset counted from the start of the whole string.

The behaviour is taken from `brave/src/test/java/brave/propagation/B3SingleFormatTest.java`.
The codec class itself is not part of this model. The parser's branch order was chosen
so that every assertion in that file holds (see "Left out").

Files:

- `wrappers.dfy`: `Option`.
- `lower_hex.dfy` (module `LowerHex`): fixed-width lower-hex encoding of 64-bit values,
  its inverse, and the 16-character field reader `ParseHex16`. The reader is a loop
  proved against the function `HexField`.
- `trace_context.dfy` (module `TraceContexts`): `TraceContext`, `SamplingFlags` and the
  union `TraceContextOrSamplingFlags` that a parse returns.
- `platform.dfy` (module `Platforms`): the logger, a class whose `records` sequence grows
  by one record per `Log` call.
- `b3_single_format.dfy` (module `B3SingleFormat`): the writers, the byte writers, the
  parse specification (`Parse` and one function per field), and the parse as methods.
  The methods scan the window with a cursor and log through a `Platform`. Each method is
  proved to return exactly what its function gives and to log exactly the function's
  record.
- `b3_properties.dfy` (module `B3SingleFormatProperties`):
  - the round trip, parse after write;
  - its converse: write after parse gives back the input, with one stated exception;
  - the window lemmas: parsing a window equals parsing the window alone, with offsets
    shifted.
- `b3_examples.dfy` (module `B3SingleFormatExamples`): each write, parse and rejection
  case of the test class, stated on the example ids 9, 1, 2 and 3.

## Model

| member | source | states |
|---|---|---|
| LowerHex.WriteHexLong | brave/src/test/java/brave/propagation/B3SingleFormatTest.java:46-49 | an id is written as exactly 16 lower-hex characters, zero-padded on the left |
| LowerHex.DecodeEncode | brave/src/test/java/brave/propagation/B3SingleFormatTest.java:46-49 | decoding the fixed-width hex spelling of any value below 16^width gives the value back |
| LowerHex.EncodeDecode | brave/src/test/java/brave/propagation/B3SingleFormatTest.java:46-49 | every lower-hex string is the fixed-width spelling of its own value, so the id spelling is unique |
| LowerHex.DecodeRunIsDecode | brave/src/test/java/brave/propagation/B3SingleFormatTest.java:257-269 | the cursor-based digit reader accepts a run exactly when every character is lower hex, and then yields its value |
| LowerHex.HexFieldOfWritten | brave/src/test/java/brave/propagation/B3SingleFormatTest.java:200-205 | a written id, anywhere in a larger string, reads back as the same 64-bit value |
| LowerHex.HexFieldSpells | brave/src/test/java/brave/propagation/B3SingleFormatTest.java:200-205 | an id field that reads as v is spelled exactly as v is written |
| LowerHex.HexFieldRejects | brave/src/test/java/brave/propagation/B3SingleFormatTest.java:264-269 | an id field with any character that is not lower hex is rejected |
| LowerHex.HexFieldWindow | brave/src/test/java/brave/propagation/B3SingleFormatTest.java:177-184 | reading an id field inside a window is reading it in the window cut out on its own |
| LowerHex.ParseHex16 | brave/src/test/java/brave/propagation/B3SingleFormatTest.java:264-269 | the loop that reads a field succeeds iff 16 characters remain in the window and all are lower hex, and then returns their value |
| TraceContexts.SamplingFlags.sampled | brave/src/test/java/brave/propagation/B3SingleFormatTest.java:242-255 | only EMPTY leaves sampling undecided; SAMPLED and DEBUG both mean sampled |
| Platforms.Platform.constructor | brave/src/test/java/brave/propagation/B3SingleFormatTest.java:50-55 | a fresh logger has recorded nothing |
| Platforms.Platform.Log | brave/src/test/java/brave/propagation/B3SingleFormatTest.java:58-61 | logging appends exactly one (template, argument) record and changes nothing else |
| B3SingleFormat.TraceIdField | brave/src/test/java/brave/propagation/B3SingleFormatTest.java:63-77 | the trace id is 32 lower-hex characters when its high half is non-zero, otherwise 16 |
| B3SingleFormat.SampledField | brave/src/test/java/brave/propagation/B3SingleFormatTest.java:79-101 | the sampling segment is two characters once sampling is decided, otherwise empty |
| B3SingleFormat.ParentIdField | brave/src/test/java/brave/propagation/B3SingleFormatTest.java:103-110 | the parent segment is "-" and 16 hex characters when there is a parent, otherwise empty |
| B3SingleFormat.WriteWithoutParentId | brave/src/test/java/brave/propagation/B3SingleFormatTest.java:141-174 | the output is the trace id, a hyphen, the span id and the sampling segment, all ASCII |
| B3SingleFormat.Write | brave/src/test/java/brave/propagation/B3SingleFormatTest.java:63-125 | the output extends the without-parent output, equals it when there is no parent, is pure ASCII and is 33 to 68 characters long |
| B3SingleFormat.Utf8AsciiRoundTrip | brave/src/test/java/brave/propagation/B3SingleFormatTest.java:63-69 | an ASCII string encodes to one byte per character, and those bytes decode back to the same string |
| B3SingleFormat.AsciiToBytes | brave/src/test/java/brave/propagation/B3SingleFormatTest.java:63-69 | the byte-copy loop produces exactly the UTF-8 encoding of the ASCII string |
| B3SingleFormat.WriteAsBytes | brave/src/test/java/brave/propagation/B3SingleFormatTest.java:63-125 | the bytes are the UTF-8 encoding of the written string, and decoding them gives that string back |
| B3SingleFormat.WriteWithoutParentIdAsBytes | brave/src/test/java/brave/propagation/B3SingleFormatTest.java:141-174 | the bytes are the UTF-8 encoding of the without-parent string, and decoding them gives that string back |
| B3SingleFormat.ParseSampling | brave/src/test/java/brave/propagation/B3SingleFormatTest.java:242-255 | exactly 0, 1 and d are sampling characters, and each one is the character written for its decision |
| B3SingleFormat.Parse | brave/src/test/java/brave/propagation/B3SingleFormatTest.java:177-369 | sampling flags come out exactly for a one-character window holding 0, 1 or d; a parsed context is valid and needs at least 33 characters; every logged offset lies within [begin, end] |
| B3SingleFormat.ParseTraceInfo | brave/src/test/java/brave/propagation/B3SingleFormatTest.java:350-355 | trace-info parses only to a valid context, and any logged offset lies within [begin, end] |
| B3SingleFormat.ParseSpanId | brave/src/test/java/brave/propagation/B3SingleFormatTest.java:264-269 | a context parsed after the trace id keeps that trace id and is valid |
| B3SingleFormat.ParseAfterSpanId | brave/src/test/java/brave/propagation/B3SingleFormatTest.java:280-301 | what follows the span id parses only to a valid context, and any logged offset lies inside the window |
| B3SingleFormat.ParseSampledField | brave/src/test/java/brave/propagation/B3SingleFormatTest.java:271-285 | a parsed sampling field always leaves sampling decided |
| B3SingleFormat.ParseParentId | brave/src/test/java/brave/propagation/B3SingleFormatTest.java:364-369 | a parent id changes nothing in the context but its parent, and a bad one is reported at its own start offset |
| B3SingleFormat.ParseB3SingleFormat | brave/src/test/java/brave/propagation/B3SingleFormatTest.java:177-198 | the window parse returns Parse's value or null, logs nothing on success and exactly Parse's one record on rejection |
| B3SingleFormat.ReadTraceInfo | brave/src/test/java/brave/propagation/B3SingleFormatTest.java:257-262 | reading the trace id at the cursor returns and logs exactly what ParseTraceInfo gives |
| B3SingleFormat.ReadSpanId | brave/src/test/java/brave/propagation/B3SingleFormatTest.java:264-269 | reading the span id at the cursor returns and logs exactly what ParseSpanId gives |
| B3SingleFormat.ReadAfterSpanId | brave/src/test/java/brave/propagation/B3SingleFormatTest.java:280-301 | reading past the span id returns and logs exactly what ParseAfterSpanId gives |
| B3SingleFormat.ReadSampledField | brave/src/test/java/brave/propagation/B3SingleFormatTest.java:271-285 | reading the sampling field returns and logs exactly what ParseSampledField gives |
| B3SingleFormat.ReadParentId | brave/src/test/java/brave/propagation/B3SingleFormatTest.java:364-369 | reading the parent id returns and logs exactly what ParseParentId gives |
| B3SingleFormat.ParseB3SingleFormatAll | brave/src/test/java/brave/propagation/B3SingleFormatTest.java:317-327 | the one-argument parse is the window parse over the whole string |
| B3SingleFormatProperties.SamplingRoundTrip | brave/src/test/java/brave/propagation/B3SingleFormatTest.java:214-240 | the sampling character written for a decided context reads back as the same sampled and debug flags |
| B3SingleFormatProperties.AfterSpanIdRoundTrip | brave/src/test/java/brave/propagation/B3SingleFormatTest.java:221-240 | the written sampling and parent segments read back into the context they came from |
| B3SingleFormatProperties.TraceIdRoundTrip | brave/src/test/java/brave/propagation/B3SingleFormatTest.java:200-212 | a written 64- or 128-bit trace id reads back and hands over to the span id at the right offset |
| B3SingleFormatProperties.RoundTrip | brave/src/test/java/brave/propagation/B3SingleFormatTest.java:127-139 | parsing what was written gives back every valid context field for field |
| B3SingleFormatProperties.RoundTripWithoutParentId | brave/src/test/java/brave/propagation/B3SingleFormatTest.java:141-174 | parsing the without-parent output gives back the context with its parent dropped |
| B3SingleFormatProperties.ParseWindow | brave/src/test/java/brave/propagation/B3SingleFormatTest.java:177-198 | parsing a window is parsing the cut-out window, except that logged offsets are moved by begin |
| B3SingleFormatProperties.ParseEmbedded | brave/src/test/java/brave/propagation/B3SingleFormatTest.java:177-184 | a value between a prefix and a suffix parses like the value alone, with offsets moved by the prefix length |
| B3SingleFormatProperties.SpanIdCanonical | brave/src/test/java/brave/propagation/B3SingleFormatTest.java:200-240 | once a span id and its tail parse, they are spelled exactly as the result would be written |
| B3SingleFormatProperties.TraceInfoThenWrite | brave/src/test/java/brave/propagation/B3SingleFormatTest.java:200-212 | writing a parsed trace-info gives the input back iff the input did not carry a 128-bit id with a zero high half |
| B3SingleFormatProperties.ParseThenWrite | brave/src/test/java/brave/propagation/B3SingleFormatTest.java:200-240 | writing the context parsed from a whole string gives that string back, except exactly when it was a 128-bit id with a zero high half |
| B3SingleFormatExamples.HexExamples | brave/src/test/java/brave/propagation/B3SingleFormatTest.java:46-49 | ids 9, 1, 2 and 3 are written as the four id constants |
| B3SingleFormatExamples.WriteExamples | brave/src/test/java/brave/propagation/B3SingleFormatTest.java:63-125 | the exact output of each write case: undecided, 128-bit, unsampled, sampled, debug, parent, largest |
| B3SingleFormatExamples.WriteWithoutParentIdExamples | brave/src/test/java/brave/propagation/B3SingleFormatTest.java:141-174 | the exact without-parent output of each case, with the parent never written |
| B3SingleFormatExamples.ParseExamples | brave/src/test/java/brave/propagation/B3SingleFormatTest.java:127-240 | the largest, the undecided, the unsampled and the debug strings parse to their contexts |
| B3SingleFormatExamples.ParseParentExamples | brave/src/test/java/brave/propagation/B3SingleFormatTest.java:221-293 | a parent after 0, after d, or right after the span id parses, the last leaving sampling undecided |
| B3SingleFormatExamples.ParseMiddleOfString | brave/src/test/java/brave/propagation/B3SingleFormatTest.java:177-212 | 128-bit ids parse on their own and from the window inside "b3=...," |
| B3SingleFormatExamples.ParseSamplingExamples | brave/src/test/java/brave/propagation/B3SingleFormatTest.java:186-255 | 0, 1 and d parse to NOT_SAMPLED, SAMPLED and DEBUG, also as a window; a two-character window is truncated |
| B3SingleFormatExamples.RejectEmptyAndShort | brave/src/test/java/brave/propagation/B3SingleFormatTest.java:303-327 | "" logs empty, "-" logs the sampled message at offset 0, "not-a-tumor" logs truncated |
| B3SingleFormatExamples.RejectTruncatedShort | brave/src/test/java/brave/propagation/B3SingleFormatTest.java:329-348 | each listed input shorter than two ids is rejected as truncated |
| B3SingleFormatExamples.RejectTruncatedAfterIds | brave/src/test/java/brave/propagation/B3SingleFormatTest.java:329-348 | each listed input that is cut short after the ids is rejected as truncated |
| B3SingleFormatExamples.RejectMalformedTraceId | brave/src/test/java/brave/propagation/B3SingleFormatTest.java:257-315 | a bad trace id and a UUID both log the trace-ID message without an argument |
| B3SingleFormatExamples.RejectTraceIdTooLong | brave/src/test/java/brave/propagation/B3SingleFormatTest.java:350-355 | a 33-character trace id logs "trace ID is too long" |
| B3SingleFormatExamples.RejectMalformedSpanId | brave/src/test/java/brave/propagation/B3SingleFormatTest.java:264-269 | a bad span id logs its message at offset 17 |
| B3SingleFormatExamples.RejectMissingSpanIdAfterWideTraceId | brave/src/test/java/brave/propagation/B3SingleFormatTest.java:264-269 | a 128-bit trace id and its hyphen with nothing after them logs the span-id message at offset 33, the window's end |
| B3SingleFormatExamples.RejectSpanIdTooLong | brave/src/test/java/brave/propagation/B3SingleFormatTest.java:357-362 | a 17-character span id logs "span ID is too long" |
| B3SingleFormatExamples.RejectMalformedParentIds | brave/src/test/java/brave/propagation/B3SingleFormatTest.java:271-301 | a bad parent id logs its message at offset 36 after a sampling character, and at 34 without one |
| B3SingleFormatExamples.RejectMissingHyphenBeforeParent | brave/src/test/java/brave/propagation/B3SingleFormatTest.java:280-285 | "!" in place of the hyphen before the parent logs the hyphen message at offset 35 |
| B3SingleFormatExamples.RejectParentIdTooLong | brave/src/test/java/brave/propagation/B3SingleFormatTest.java:364-369 | a 17-character parent id logs "parent ID is too long" |

## Left out

- The codec class `brave/propagation/B3SingleFormat.java` is not part of this model.
  The parser's branch order below is the simplest one under which every assertion about
  outputs, results and logged records holds:
  - the trace id is 32 characters exactly when a hyphen sits 32 characters into the window;
  - after "-" following the span id, the next character is a sampling character when it
    is the last one in the window or is followed by something other than lower hex;
    otherwise a parent id starts there.
- Trace-id length: the model says "trace ID is too long" as soon as a lower-hex character
  follows the 16th (or 32nd) character. So it covers any over-long run, not only one
  longer than 32 characters. The one over-long case in the test class (33 characters)
  behaves the same either way.
- The trace-id message is logged with the literal text
  "at offset 0" and no argument, as the test class shows. It is logged this way even
  for a window that starts later, unlike the absolute `{0}` offsets of the other
  messages.
- A window that ends right after a 128-bit trace id and its hyphen (33 characters) is not
  reported as truncated. The model reports the missing span id with the span-id message
  at offset `end`, one past the last character. The test class has no such input.
- Offsets count Dafny string elements, which are Unicode scalar values. Java counts UTF-16
  code units. So `begin`, `end` and every logged offset differ from Java's once a
  character above U+FFFF comes before them. B3 headers are ASCII.
- Zero ids: a trace id whose low half is zero, a zero span id and a zero parent id are
  rejected with that field's message. `TraceContext` never holds them, but the test
  class does not show this path.
- The propagated extra fields, the local root id and the other `TraceContext` fields
  that B3 does not carry.
- The reused thread-local character buffer the writers fill before copying it out. The
  model builds each string as a value.
- Java's signed `byte`: bytes are modelled as 0..255. Only the ASCII range 0..127 ever
  occurs.
- B3SingleFormat.Utf8DecodeAscii decodes ASCII bytes only. UTF-8 decoding of other bytes
  never arises for the writers' output.
- The platform logger is a class holding the records received. The static
  `Platform.get()` lookup and the always-null throwable argument are not modelled.
- The truncated-list test resets the logger between inputs. The model states each
  input's outcome from an empty log instead.
- The propagation abstraction, the scope manager (`CurrentTraceContext`,
  `StrictScopeDecorator`), the Spring factory beans, the JMS, gRPC and class-loader tests.
  They only configure or exercise code outside this codec.
