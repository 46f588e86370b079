/**
 * The B3 single-header codec:
 *
 *   b3         = sampling / trace-info
 *   trace-info = trace-id "-" span-id [ "-" sampling ] [ "-" parent-id ]
 *   trace-id   = 16lowerhex / 32lowerhex
 *   span-id    = parent-id = 16lowerhex
 *   sampling   = "0" / "1" / "d"
 *
 * Writing is string building over fixed-width hex fields. Parsing reads only
 * the window [begin, end) of a larger string, never fails loudly, and reports
 * each rejection as exactly one record to the platform logger, with offsets
 * absolute in the whole string.
 */
module B3SingleFormat {
  import opened Wrappers
  import opened LowerHex
  import opened TraceContexts
  import opened Platforms

  /** traceid128-spanid-1-parentid */
  const FORMAT_MAX_LENGTH: nat := 32 + 1 + 16 + 3 + 16

  /** traceid64-spanid: the shortest input that carries identifiers. */
  const FORMAT_MIN_IDS_LENGTH: nat := 16 + 1 + 16

  const EMPTY := "Invalid input: empty"
  const TRUNCATED := "Invalid input: truncated"
  const BAD_TRACE_ID := "Invalid input: expected a 16 or 32 lower hex trace ID at offset 0"
  const TRACE_ID_TOO_LONG := "Invalid input: trace ID is too long"
  const EXPECTED_HYPHEN := "Invalid input: expected a hyphen(-) delimiter at offset {0}"
  const BAD_SPAN_ID := "Invalid input: expected a 16 lower hex span ID at offset {0}"
  const SPAN_ID_TOO_LONG := "Invalid input: span ID is too long"
  const BAD_SAMPLED := "Invalid input: expected 0, 1 or d for sampled at offset {0}"
  const BAD_PARENT_ID := "Invalid input: expected a 16 lower hex parent ID at offset {0}"
  const PARENT_ID_TOO_LONG := "Invalid input: parent ID is too long"

  // ---------------------------------------------------------------- writing

  predicate IsAscii(s: string) {
    forall i :: 0 <= i < |s| ==> s[i] as int < 128
  }

  /** 16 or 32 hex characters: the high half only when it is non-zero. */
  function TraceIdField(c: TraceContext): (s: string)
    ensures |s| == (if c.traceIdHigh != 0 then 32 else 16) && AllLowerHex(s)
  {
    (if c.traceIdHigh != 0 then WriteHexLong(c.traceIdHigh) else "") + WriteHexLong(c.traceId)
  }

  /** The character that carries a decided sampling state. */
  function SamplingChar(sampled: bool, debug: bool): char {
    if debug then 'd' else if sampled then '1' else '0'
  }

  /** "-0", "-1" or "-d" once sampling is decided, otherwise nothing. */
  function SampledField(c: TraceContext): (s: string)
    ensures |s| == if c.sampled.Some? then 2 else 0
  {
    match c.sampled
    case None => ""
    case Some(sampled) => ['-', SamplingChar(sampled, c.debug)]
  }

  /** "-" and the 16 hex characters of the parent id when there is one. */
  function ParentIdField(parentId: Option<U64>): (s: string)
    ensures |s| == if parentId.Some? then 17 else 0
  {
    match parentId
    case None => ""
    case Some(id) => "-" + WriteHexLong(id)
  }

  /** writeB3SingleFormatWithoutParentId: trace id, span id and sampling only. */
  function WriteWithoutParentId(c: TraceContext): (s: string)
    ensures |s| == |TraceIdField(c)| + 17 + |SampledField(c)|
    ensures s[|TraceIdField(c)|] == '-'
    ensures IsAscii(s)
  {
    TraceIdField(c) + "-" + WriteHexLong(c.spanId) + SampledField(c)
  }

  /** writeB3SingleFormat: the same prefix, then the parent id when there is one. */
  function Write(c: TraceContext): (s: string)
    ensures WriteWithoutParentId(c) <= s
    ensures c.parentId.None? ==> s == WriteWithoutParentId(c)
    ensures |s| == |WriteWithoutParentId(c)| + (if c.parentId.Some? then 17 else 0)
    ensures FORMAT_MIN_IDS_LENGTH <= |s| <= FORMAT_MAX_LENGTH
    ensures IsAscii(s)
  {
    WriteWithoutParentId(c) + ParentIdField(c.parentId)
  }

  // ------------------------------------------------------------------ bytes

  type Byte = x: int | 0 <= x < 256

  /** The UTF-8 encoding of one Unicode scalar value. */
  function Utf8Char(c: char): (b: seq<Byte>)
    ensures 1 <= |b| <= 4
    ensures |b| == 1 <==> c as int < 128
  {
    var cp := c as int;
    if cp < 0x80 then [cp]
    else if cp < 0x800 then [0xC0 + cp / 0x40, 0x80 + cp % 0x40]
    else if cp < 0x1_0000 then [0xE0 + cp / 0x1000, 0x80 + cp / 0x40 % 0x40, 0x80 + cp % 0x40]
    else [0xF0 + cp / 0x4_0000, 0x80 + cp / 0x1000 % 0x40, 0x80 + cp / 0x40 % 0x40, 0x80 + cp % 0x40]
  }

  /** The UTF-8 encoding of a string (what String.getBytes(UTF_8) gives). */
  function Utf8Encode(s: string): seq<Byte> {
    if s == [] then [] else Utf8Encode(s[..|s| - 1]) + Utf8Char(s[|s| - 1])
  }

  /** Bytes below 0x80: each one is a whole UTF-8 character. */
  predicate AllAsciiBytes(b: seq<Byte>) {
    forall i :: 0 <= i < |b| ==> b[i] < 0x80
  }

  /** Decoding ASCII bytes as UTF-8 (what new String(bytes, UTF_8) gives on them). */
  function Utf8DecodeAscii(b: seq<Byte>): (s: string)
    requires AllAsciiBytes(b)
    ensures |s| == |b|
  {
    if b == [] then "" else Utf8DecodeAscii(b[..|b| - 1]) + [b[|b| - 1] as char]
  }

  /** An ASCII character is its own single UTF-8 byte. */
  lemma Utf8AsciiChar(c: char)
    requires c as int < 0x80
    ensures Utf8Char(c) == [c as int]
  {
  }

  /** An ASCII string encodes to one byte per character, and those bytes decode back to it. */
  lemma {:induction false} Utf8AsciiRoundTrip(s: string)
    requires IsAscii(s)
    ensures |Utf8Encode(s)| == |s| && AllAsciiBytes(Utf8Encode(s))
    ensures Utf8DecodeAscii(Utf8Encode(s)) == s
  {
    if s != [] {
      var init := s[..|s| - 1];
      Utf8AsciiRoundTrip(init);
      var b := Utf8Encode(s);
      Utf8AsciiChar(s[|s| - 1]);
      assert b == Utf8Encode(init) + [s[|s| - 1] as int];
      assert b[..|b| - 1] == Utf8Encode(init);
      assert s == init + [s[|s| - 1]];
    }
  }

  /** Copies an ASCII character buffer into a new byte array, one byte per character. */
  method AsciiToBytes(s: string) returns (bytes: seq<Byte>)
    requires IsAscii(s)
    ensures bytes == Utf8Encode(s)
  {
    bytes := [];
    var i := 0;
    while i < |s|
      invariant 0 <= i <= |s|
      invariant bytes == Utf8Encode(s[..i])
    {
      assert s[..i + 1][..i] == s[..i];
      bytes := bytes + [s[i] as int];
      i := i + 1;
    }
    assert s[..i] == s;
  }

  /** writeB3SingleFormatAsBytes */
  method WriteAsBytes(c: TraceContext) returns (bytes: seq<Byte>)
    ensures bytes == Utf8Encode(Write(c))
    ensures |bytes| == |Write(c)| && AllAsciiBytes(bytes) && Utf8DecodeAscii(bytes) == Write(c)
  {
    Utf8AsciiRoundTrip(Write(c));
    bytes := AsciiToBytes(Write(c));
  }

  /** writeB3SingleFormatWithoutParentIdAsBytes */
  method WriteWithoutParentIdAsBytes(c: TraceContext) returns (bytes: seq<Byte>)
    ensures bytes == Utf8Encode(WriteWithoutParentId(c))
    ensures |bytes| == |WriteWithoutParentId(c)| && AllAsciiBytes(bytes)
    ensures Utf8DecodeAscii(bytes) == WriteWithoutParentId(c)
  {
    Utf8AsciiRoundTrip(WriteWithoutParentId(c));
    bytes := AsciiToBytes(WriteWithoutParentId(c));
  }

  // ---------------------------------------------------------------- parsing

  /** A parse either yields a value and logs nothing, or logs one record and yields null. */
  datatype ParseOutcome = Parsed(value: TraceContextOrSamplingFlags) | Rejected(record: LogRecord)
  {
    /** What the parse method returns; None stands for Java's null. */
    function Result(): Option<TraceContextOrSamplingFlags> {
      if Parsed? then Some(value) else None
    }

    /** What the parse method hands to the platform logger. */
    function Logged(): seq<LogRecord> {
      if Parsed? then [] else [record]
    }
  }

  function Reject(template: string, offset: Option<int>): ParseOutcome {
    Rejected(LogRecord(template, offset))
  }

  /** The decision a sampling character stands for, if it is one. */
  function ParseSampling(c: char): (f: Option<SamplingFlags>)
    ensures f.Some? <==> c in {'0', '1', 'd'}
    ensures f.Some? ==> f.value != Empty && SamplingChar(f.value == Sampled || f.value == Debug, f.value == Debug) == c
  {
    if c == '0' then Some(NotSampled)
    else if c == '1' then Some(Sampled)
    else if c == 'd' then Some(Debug)
    else None
  }

  /**
   * parseB3SingleFormat(input, begin, end): the window is empty, a lone
   * sampling character, too short for two ids, or trace-info.
   */
  function Parse(input: string, begin: nat, end: nat): (r: ParseOutcome)
    requires begin <= end <= |input|
    ensures r.Parsed? && r.value.FromFlags? <==> end == begin + 1 && input[begin] in {'0', '1', 'd'}
    ensures r.Parsed? && r.value.FromContext? ==> r.value.context.Valid() && end - begin >= FORMAT_MIN_IDS_LENGTH
    ensures r.Rejected? && r.record.arg.Some? ==> begin <= r.record.arg.value <= end
  {
    if begin == end then Reject(EMPTY, None)
    else if begin + 1 == end then
      match ParseSampling(input[begin])
      case Some(flags) => Parsed(FromFlags(flags))
      case None => Reject(BAD_SAMPLED, Some(begin))
    else if end - begin < FORMAT_MIN_IDS_LENGTH then Reject(TRUNCATED, None)
    else ParseTraceInfo(input, begin, end)
  }

  /**
   * The trace id is 128-bit exactly when a hyphen sits 32 characters into the
   * window; then the span id and whatever follows it.
   */
  function ParseTraceInfo(input: string, begin: nat, end: nat): (r: ParseOutcome)
    requires begin + FORMAT_MIN_IDS_LENGTH <= end <= |input|
    ensures r.Parsed? ==> r.value.FromContext? && r.value.context.Valid()
    ensures r.Rejected? && r.record.arg.Some? ==> begin <= r.record.arg.value <= end
  {
    var wide := input[begin + 32] == '-';
    var traceIdEnd := if wide then begin + 32 else begin + 16;
    var traceIdHigh := if wide then HexField(input, begin, end) else Some(0);
    var traceId := HexField(input, traceIdEnd - 16, end);
    if traceIdHigh.None? || traceId.None? || traceId.value == 0 then Reject(BAD_TRACE_ID, None)
    else if IsLowerHex(input[traceIdEnd]) then Reject(TRACE_ID_TOO_LONG, None)
    else if input[traceIdEnd] != '-' then Reject(EXPECTED_HYPHEN, Some(traceIdEnd))
    else ParseSpanId(input, traceIdEnd + 1, end, traceIdHigh.value, traceId.value)
  }

  /** The span id right after the trace id's hyphen, then whatever follows it. */
  function ParseSpanId(input: string, pos: nat, end: nat, traceIdHigh: U64, traceId: U64): (r: ParseOutcome)
    requires pos <= end <= |input|
    requires traceId != 0
    ensures r.Parsed? ==> r.value.FromContext? && r.value.context.Valid()
    ensures r.Parsed? ==> r.value.context.traceIdHigh == traceIdHigh && r.value.context.traceId == traceId
    ensures r.Rejected? && r.record.arg.Some? ==> pos <= r.record.arg.value <= end
  {
    var spanId := HexField(input, pos, end);
    if spanId.None? || spanId.value == 0 then Reject(BAD_SPAN_ID, Some(pos))
    else ParseAfterSpanId(input, pos + 16, end, TraceContext(traceIdHigh, traceId, spanId.value, None, None, false))
  }

  /**
   * After "trace-span": the end, or "-" then a sampling character (itself
   * optionally followed by "-parent"), or "-" then a parent id directly. The
   * character after the first one of the field tells the two apart: a
   * sampling character is last or followed by something that is not lower hex.
   */
  function ParseAfterSpanId(input: string, pos: nat, end: nat, context: TraceContext): (r: ParseOutcome)
    requires pos <= end <= |input|
    requires context.Valid() && context.parentId.None? && context.sampled.None? && !context.debug
    ensures r.Parsed? ==> r.value.FromContext? && r.value.context.Valid()
    ensures r.Rejected? && r.record.arg.Some? ==> pos <= r.record.arg.value < end
  {
    if pos == end then Parsed(FromContext(context))
    else if IsLowerHex(input[pos]) then Reject(SPAN_ID_TOO_LONG, None)
    else if pos + 1 == end then Reject(TRUNCATED, None)
    else if input[pos] != '-' then Reject(EXPECTED_HYPHEN, Some(pos))
    else if pos + 2 == end || !IsLowerHex(input[pos + 2]) then ParseSampledField(input, pos + 1, end, context)
    else if end < pos + 17 then Reject(TRUNCATED, None)
    else ParseParentId(input, pos + 1, end, context)
  }

  /** A sampling character, then either the end or "-" and the parent id. */
  function ParseSampledField(input: string, pos: nat, end: nat, context: TraceContext): (r: ParseOutcome)
    requires pos < end <= |input|
    requires context.Valid() && context.parentId.None? && context.sampled.None? && !context.debug
    ensures r.Parsed? ==> r.value.FromContext? && r.value.context.Valid() && r.value.context.sampled.Some?
    ensures r.Rejected? && r.record.arg.Some? ==> pos <= r.record.arg.value < end
  {
    match ParseSampling(input[pos])
    case None => Reject(BAD_SAMPLED, Some(pos))
    case Some(flags) =>
      var decided := context.(sampled := flags.sampled(), debug := flags.debug());
      if pos + 1 == end then Parsed(FromContext(decided))
      else if end < pos + 1 + 17 then Reject(TRUNCATED, None)
      else if input[pos + 1] != '-' then Reject(EXPECTED_HYPHEN, Some(pos + 1))
      else ParseParentId(input, pos + 2, end, decided)
  }

  /** The last field: exactly 16 lower-hex characters up to the end of the window. */
  function ParseParentId(input: string, pos: nat, end: nat, context: TraceContext): (r: ParseOutcome)
    requires pos + 16 <= end <= |input|
    requires context.Valid() && context.parentId.None?
    ensures r.Parsed? ==> r.value.FromContext? && r.value.context.Valid()
    ensures r.Parsed? ==> r.value.context == context.(parentId := r.value.context.parentId)
    ensures r.Rejected? && r.record.arg.Some? ==> r.record.arg.value == pos
  {
    var parentId := HexField(input, pos, end);
    if parentId.None? || parentId.value == 0 then Reject(BAD_PARENT_ID, Some(pos))
    else if pos + 16 != end then Reject(PARENT_ID_TOO_LONG, None)
    else Parsed(FromContext(context.(parentId := Some(parentId.value))))
  }

  /**
   * The parse as the codec runs it: one left-to-right pass with a cursor,
   * logging through the platform and returning null (None) at the first
   * rejection.
   */
  method ParseB3SingleFormat(input: string, begin: nat, end: nat, platform: Platform)
    returns (r: Option<TraceContextOrSamplingFlags>)
    requires begin <= end <= |input|
    modifies platform
    ensures r == Parse(input, begin, end).Result()
    ensures platform.records == old(platform.records) + Parse(input, begin, end).Logged()
  {
    if begin == end {
      platform.Log(EMPTY, None);
      return None;
    }
    if begin + 1 == end {
      var flags := ParseSampling(input[begin]);
      if flags.None? {
        platform.Log(BAD_SAMPLED, Some(begin));
        return None;
      }
      return Some(FromFlags(flags.value));
    }
    if end - begin < FORMAT_MIN_IDS_LENGTH {
      platform.Log(TRUNCATED, None);
      return None;
    }
    r := ReadTraceInfo(input, begin, end, platform);
  }

  /** The trace id and its delimiter, read at the cursor. */
  method ReadTraceInfo(input: string, begin: nat, end: nat, platform: Platform)
    returns (r: Option<TraceContextOrSamplingFlags>)
    requires begin + FORMAT_MIN_IDS_LENGTH <= end <= |input|
    modifies platform
    ensures r == ParseTraceInfo(input, begin, end).Result()
    ensures platform.records == old(platform.records) + ParseTraceInfo(input, begin, end).Logged()
  {
    var pos := begin;
    var traceIdHigh: Option<U64> := Some(0);
    if input[pos + 32] == '-' {
      traceIdHigh := ParseHex16(input, pos, end);
      pos := pos + 16;
    }
    assert traceIdHigh == if input[begin + 32] == '-' then HexField(input, begin, end) else Some(0);
    var traceId := ParseHex16(input, pos, end);
    assert traceId == HexField(input, pos, end);
    pos := pos + 16;
    if traceIdHigh.None? || traceId.None? || traceId.value == 0 {
      platform.Log(BAD_TRACE_ID, None);
      return None;
    }
    if IsLowerHex(input[pos]) {
      platform.Log(TRACE_ID_TOO_LONG, None);
      return None;
    }
    if input[pos] != '-' {
      platform.Log(EXPECTED_HYPHEN, Some(pos));
      return None;
    }
    r := ReadSpanId(input, pos + 1, end, traceIdHigh.value, traceId.value, platform);
  }

  /** The span id at the cursor, then whatever follows it. */
  method ReadSpanId(input: string, pos: nat, end: nat, traceIdHigh: U64, traceId: U64, platform: Platform)
    returns (r: Option<TraceContextOrSamplingFlags>)
    requires pos <= end <= |input|
    requires traceId != 0
    modifies platform
    ensures r == ParseSpanId(input, pos, end, traceIdHigh, traceId).Result()
    ensures platform.records == old(platform.records) + ParseSpanId(input, pos, end, traceIdHigh, traceId).Logged()
  {
    var spanId := ParseHex16(input, pos, end);
    if spanId.None? || spanId.value == 0 {
      platform.Log(BAD_SPAN_ID, Some(pos));
      return None;
    }
    var context := TraceContext(traceIdHigh, traceId, spanId.value, None, None, false);
    r := ReadAfterSpanId(input, pos + 16, end, context, platform);
  }

  /** Whatever follows the span id: nothing, a sampling character, a parent id, or both. */
  method ReadAfterSpanId(input: string, pos: nat, end: nat, context: TraceContext, platform: Platform)
    returns (r: Option<TraceContextOrSamplingFlags>)
    requires pos <= end <= |input|
    requires context.Valid() && context.parentId.None? && context.sampled.None? && !context.debug
    modifies platform
    ensures r == ParseAfterSpanId(input, pos, end, context).Result()
    ensures platform.records == old(platform.records) + ParseAfterSpanId(input, pos, end, context).Logged()
  {
    if pos == end {
      return Some(FromContext(context));
    }
    if IsLowerHex(input[pos]) {
      platform.Log(SPAN_ID_TOO_LONG, None);
      return None;
    }
    if pos + 1 == end {
      platform.Log(TRUNCATED, None);
      return None;
    }
    if input[pos] != '-' {
      platform.Log(EXPECTED_HYPHEN, Some(pos));
      return None;
    }
    if pos + 2 == end || !IsLowerHex(input[pos + 2]) {
      r := ReadSampledField(input, pos + 1, end, context, platform);
      return;
    }
    if end < pos + 17 {
      platform.Log(TRUNCATED, None);
      return None;
    }
    r := ReadParentId(input, pos + 1, end, context, platform);
  }

  /** The sampling character at the cursor, then the end or "-" and the parent id. */
  method ReadSampledField(input: string, pos: nat, end: nat, context: TraceContext, platform: Platform)
    returns (r: Option<TraceContextOrSamplingFlags>)
    requires pos < end <= |input|
    requires context.Valid() && context.parentId.None? && context.sampled.None? && !context.debug
    modifies platform
    ensures r == ParseSampledField(input, pos, end, context).Result()
    ensures platform.records == old(platform.records) + ParseSampledField(input, pos, end, context).Logged()
  {
    var flags := ParseSampling(input[pos]);
    if flags.None? {
      platform.Log(BAD_SAMPLED, Some(pos));
      return None;
    }
    var decided := context.(sampled := flags.value.sampled(), debug := flags.value.debug());
    if pos + 1 == end {
      return Some(FromContext(decided));
    }
    if end < pos + 1 + 17 {
      platform.Log(TRUNCATED, None);
      return None;
    }
    if input[pos + 1] != '-' {
      platform.Log(EXPECTED_HYPHEN, Some(pos + 1));
      return None;
    }
    r := ReadParentId(input, pos + 2, end, decided, platform);
  }

  /** The parent id, which must end the window. */
  method ReadParentId(input: string, pos: nat, end: nat, context: TraceContext, platform: Platform)
    returns (r: Option<TraceContextOrSamplingFlags>)
    requires pos + 16 <= end <= |input|
    requires context.Valid() && context.parentId.None?
    modifies platform
    ensures r == ParseParentId(input, pos, end, context).Result()
    ensures platform.records == old(platform.records) + ParseParentId(input, pos, end, context).Logged()
  {
    var parentId := ParseHex16(input, pos, end);
    if parentId.None? || parentId.value == 0 {
      platform.Log(BAD_PARENT_ID, Some(pos));
      return None;
    }
    if pos + 16 != end {
      platform.Log(PARENT_ID_TOO_LONG, None);
      return None;
    }
    return Some(FromContext(context.(parentId := Some(parentId.value))));
  }

  /** parseB3SingleFormat(input): the whole string is the window. */
  method ParseB3SingleFormatAll(input: string, platform: Platform)
    returns (r: Option<TraceContextOrSamplingFlags>)
    modifies platform
    ensures r == Parse(input, 0, |input|).Result()
    ensures platform.records == old(platform.records) + Parse(input, 0, |input|).Logged()
  {
    r := ParseB3SingleFormat(input, 0, |input|, platform);
  }
}
