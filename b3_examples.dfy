/**
 * The codec's behaviour on the fixed examples of its test suite: the ids
 * 0x9 (high half of a 128-bit trace id), 0x1 (trace id), 0x2 (parent id) and
 * 0x3 (span id), written, parsed back and mangled.
 */
module B3SingleFormatExamples {
  import opened Wrappers
  import opened LowerHex
  import opened TraceContexts
  import opened Platforms
  import opened B3SingleFormat
  import opened B3SingleFormatProperties

  const TRACE_ID_HIGH := "0000000000000009"
  const TRACE_ID := "0000000000000001"
  const PARENT_ID := "0000000000000002"
  const SPAN_ID := "0000000000000003"

  /** Fifteen zero nibbles. */
  lemma ZeroPadding()
    ensures Encode(0, 15) == "000000000000000"
  {
  }

  lemma HexExamples()
    ensures WriteHexLong(9) == TRACE_ID_HIGH && WriteHexLong(1) == TRACE_ID
    ensures WriteHexLong(2) == PARENT_ID && WriteHexLong(3) == SPAN_ID
  {
    ZeroPadding();
  }

  function Context(traceIdHigh: U64, parentId: Option<U64>, sampled: Option<bool>, debug: bool): TraceContext {
    TraceContext(traceIdHigh, 1, 3, parentId, sampled, debug)
  }

  // ---------------------------------------------------------------- writing

  lemma WriteExamples()
    ensures Write(Context(0, None, None, false)) == TRACE_ID + "-" + SPAN_ID
    ensures Write(Context(9, None, None, false)) == TRACE_ID_HIGH + TRACE_ID + "-" + SPAN_ID
    ensures Write(Context(0, None, Some(false), false)) == TRACE_ID + "-" + SPAN_ID + "-0"
    ensures Write(Context(0, None, Some(true), false)) == TRACE_ID + "-" + SPAN_ID + "-1"
    ensures Write(Context(0, None, Some(true), true)) == TRACE_ID + "-" + SPAN_ID + "-d"
    ensures Write(Context(0, Some(2), Some(true), false)) == TRACE_ID + "-" + SPAN_ID + "-1-" + PARENT_ID
    ensures Write(Context(9, Some(2), Some(true), false))
            == TRACE_ID_HIGH + TRACE_ID + "-" + SPAN_ID + "-1-" + PARENT_ID
  {
    WriteUndecidedExamples();
    WriteSampledExamples();
    WriteSampledParentExamples();
  }

  lemma WriteUndecidedExamples()
    ensures Write(Context(0, None, None, false)) == TRACE_ID + "-" + SPAN_ID
    ensures Write(Context(9, None, None, false)) == TRACE_ID_HIGH + TRACE_ID + "-" + SPAN_ID
  {
    HexExamples();
    assert TraceIdField(Context(0, None, None, false)) == TRACE_ID;
    assert TraceIdField(Context(9, None, None, false)) == TRACE_ID_HIGH + TRACE_ID;
  }

  lemma WriteSampledExamples()
    ensures Write(Context(0, None, Some(false), false)) == TRACE_ID + "-" + SPAN_ID + "-0"
    ensures Write(Context(0, None, Some(true), false)) == TRACE_ID + "-" + SPAN_ID + "-1"
    ensures Write(Context(0, None, Some(true), true)) == TRACE_ID + "-" + SPAN_ID + "-d"
  {
    HexExamples();
    assert TraceIdField(Context(0, None, None, false)) == TRACE_ID;
    assert SampledField(Context(0, None, Some(false), false)) == "-0";
    assert SampledField(Context(0, None, Some(true), false)) == "-1";
    assert SampledField(Context(0, None, Some(true), true)) == "-d";
  }

  lemma WriteSampledParentExamples()
    ensures Write(Context(0, Some(2), Some(true), false)) == TRACE_ID + "-" + SPAN_ID + "-1-" + PARENT_ID
    ensures Write(Context(9, Some(2), Some(true), false))
            == TRACE_ID_HIGH + TRACE_ID + "-" + SPAN_ID + "-1-" + PARENT_ID
  {
    HexExamples();
    assert ParentIdField(Some(2)) == "-" + PARENT_ID;
    assert WriteWithoutParentId(Context(0, Some(2), Some(true), false)) == TRACE_ID + "-" + SPAN_ID + "-1";
    assert TraceIdField(Context(9, Some(2), Some(true), false)) == TRACE_ID_HIGH + TRACE_ID;
    assert WriteWithoutParentId(Context(9, Some(2), Some(true), false)) == TRACE_ID_HIGH + TRACE_ID + "-" + SPAN_ID + "-1";
  }

  lemma WriteWithoutParentIdExamples()
    ensures WriteWithoutParentId(Context(0, None, None, false)) == TRACE_ID + "-" + SPAN_ID
    ensures WriteWithoutParentId(Context(0, Some(2), Some(false), false)) == TRACE_ID + "-" + SPAN_ID + "-0"
    ensures WriteWithoutParentId(Context(0, Some(2), Some(true), false)) == TRACE_ID + "-" + SPAN_ID + "-1"
    ensures WriteWithoutParentId(Context(0, Some(2), Some(true), true)) == TRACE_ID + "-" + SPAN_ID + "-d"
  {
    HexExamples();
  }

  // ---------------------------------------------------------------- parsing

  /** Each written example parses back to its context. */
  lemma ParseExamples()
    ensures var s := TRACE_ID_HIGH + TRACE_ID + "-" + SPAN_ID + "-1-" + PARENT_ID;
            Parse(s, 0, |s|) == Parsed(FromContext(Context(9, Some(2), Some(true), false)))
    ensures var s := TRACE_ID + "-" + SPAN_ID;
            Parse(s, 0, |s|) == Parsed(FromContext(Context(0, None, None, false)))
    ensures var s := TRACE_ID + "-" + SPAN_ID + "-0";
            Parse(s, 0, |s|) == Parsed(FromContext(Context(0, None, Some(false), false)))
    ensures var s := TRACE_ID + "-" + SPAN_ID + "-d";
            Parse(s, 0, |s|) == Parsed(FromContext(Context(0, None, Some(true), true)))
  {
    WriteExamples();
    RoundTrip(Context(9, Some(2), Some(true), false));
    RoundTrip(Context(0, None, None, false));
    RoundTrip(Context(0, None, Some(false), false));
    RoundTrip(Context(0, None, Some(true), true));
  }

  lemma WriteParentExamples()
    ensures Write(Context(0, Some(2), Some(false), false)) == TRACE_ID + "-" + SPAN_ID + "-0-" + PARENT_ID
    ensures Write(Context(0, Some(2), Some(true), true)) == TRACE_ID + "-" + SPAN_ID + "-d-" + PARENT_ID
    ensures Write(Context(0, Some(2), None, false)) == TRACE_ID + "-" + SPAN_ID + "-" + PARENT_ID
  {
    HexExamples();
    var parent := ParentIdField(Some(2));
    assert parent == "-" + PARENT_ID;
    assert TraceIdField(Context(0, Some(2), None, false)) == TRACE_ID;
    assert WriteWithoutParentId(Context(0, Some(2), Some(false), false)) == TRACE_ID + "-" + SPAN_ID + "-0";
    assert WriteWithoutParentId(Context(0, Some(2), Some(true), true)) == TRACE_ID + "-" + SPAN_ID + "-d";
    assert WriteWithoutParentId(Context(0, Some(2), None, false)) == TRACE_ID + "-" + SPAN_ID;
  }

  lemma ParseParentExamples()
    ensures var s := TRACE_ID + "-" + SPAN_ID + "-0-" + PARENT_ID;
            Parse(s, 0, |s|) == Parsed(FromContext(Context(0, Some(2), Some(false), false)))
    ensures var s := TRACE_ID + "-" + SPAN_ID + "-d-" + PARENT_ID;
            Parse(s, 0, |s|) == Parsed(FromContext(Context(0, Some(2), Some(true), true)))
    ensures var s := TRACE_ID + "-" + SPAN_ID + "-" + PARENT_ID;
            Parse(s, 0, |s|) == Parsed(FromContext(Context(0, Some(2), None, false)))
  {
    WriteParentExamples();
    RoundTrip(Context(0, Some(2), Some(false), false));
    RoundTrip(Context(0, Some(2), Some(true), true));
    RoundTrip(Context(0, Some(2), None, false));
  }

  lemma Write128Example()
    ensures Write(Context(1, None, None, false)) == TRACE_ID + TRACE_ID + "-" + SPAN_ID
  {
    HexExamples();
  }

  /** 128-bit trace-info parses alone and embedded between "b3=" and ",", from its window. */
  lemma ParseMiddleOfString()
    ensures var s := TRACE_ID + TRACE_ID + "-" + SPAN_ID;
            Parse(s, 0, |s|) == Parsed(FromContext(Context(1, None, None, false)))
    ensures var input := "b3=" + (TRACE_ID + TRACE_ID + "-" + SPAN_ID) + ",";
            Parse(input, 3, |input| - 1) == Parsed(FromContext(Context(1, None, None, false)))
  {
    Write128Example();
    RoundTrip(Context(1, None, None, false));
    ParseEmbedded("b3=", TRACE_ID + TRACE_ID + "-" + SPAN_ID, ",");
  }

  /** A one-character window is a sampling decision; one more character makes it truncated. */
  lemma ParseSamplingExamples()
    ensures Parse("0", 0, 1) == Parsed(FromFlags(NotSampled))
    ensures Parse("1", 0, 1) == Parsed(FromFlags(Sampled))
    ensures Parse("d", 0, 1) == Parsed(FromFlags(Debug))
    ensures Parse("b2=foo,b3=d,b4=bar", 10, 11) == Parsed(FromFlags(Debug))
    ensures Parse("b2=foo,b3=d,b4=bar", 10, 12) == Rejected(LogRecord(TRUNCATED, None))
  {
  }

  // -------------------------------------------------------------- rejections

  lemma RejectEmptyAndShort()
    ensures Parse("", 0, 0) == Rejected(LogRecord(EMPTY, None))
    ensures Parse("-", 0, 1) == Rejected(LogRecord(BAD_SAMPLED, Some(0)))
    ensures Parse("not-a-tumor", 0, 11) == Rejected(LogRecord(TRUNCATED, None))
  {
  }

  /** Every input of the truncated list shorter than the two ids is rejected as truncated. */
  lemma RejectTruncatedShort(s: string)
    requires s in [
      "-1", "1-", TRACE_ID[..15], TRACE_ID, TRACE_ID + "-",
      TRACE_ID[..15] + "-" + SPAN_ID, TRACE_ID + "-" + SPAN_ID[..15]]
    ensures Parse(s, 0, |s|) == Rejected(LogRecord(TRUNCATED, None))
  {
  }

  /** The 64-bit ids of the examples read back, and what follows them decides the outcome. */
  lemma IdsHandOver(suffix: string)
    ensures var s := TRACE_ID + "-" + SPAN_ID + suffix;
            Parse(s, 0, |s|) == ParseAfterSpanId(s, 33, |s|, Context(0, None, None, false))
  {
    HexExamples();
    var rest := "-" + SPAN_ID + suffix;
    var s := TRACE_ID + "-" + SPAN_ID + suffix;
    assert s == WriteHexLong(1) + rest;
    NarrowTraceIdRoundTrip(1, rest);
    assert s == (TRACE_ID + "-") + WriteHexLong(3) + suffix;
    HexFieldOfWritten(TRACE_ID + "-", 3, suffix, |s|);
  }

  /** Both ids present, then a field cut short: rejected as truncated. */
  lemma RejectTruncatedAfterIds(suffix: string)
    requires suffix in ["-", "-1-", "-1-" + PARENT_ID[..15]]
    ensures var s := TRACE_ID + "-" + SPAN_ID + suffix;
            Parse(s, 0, |s|) == Rejected(LogRecord(TRUNCATED, None))
  {
    IdsHandOver(suffix);
  }

  lemma RejectMalformedTraceId()
    ensures var s := TRACE_ID[..15] + "?-" + SPAN_ID;
            Parse(s, 0, |s|) == Rejected(LogRecord(BAD_TRACE_ID, None))
    ensures var s := "b970dafd-0d95-40aa-95d8-1d8725aebe40";
            Parse(s, 0, |s|) == Rejected(LogRecord(BAD_TRACE_ID, None))
  {
    HexFieldRejects(TRACE_ID[..15] + "?-" + SPAN_ID, 0, 33, 15);
    HexFieldRejects("b970dafd-0d95-40aa-95d8-1d8725aebe40", 0, 36, 8);
  }

  lemma RejectTraceIdTooLong()
    ensures var s := TRACE_ID + TRACE_ID + "a" + "-" + SPAN_ID;
            Parse(s, 0, |s|) == Rejected(LogRecord(TRACE_ID_TOO_LONG, None))
  {
    HexExamples();
    var rest := TRACE_ID + "a" + "-" + SPAN_ID;
    assert TRACE_ID + TRACE_ID + "a" + "-" + SPAN_ID == "" + WriteHexLong(1) + rest;
    HexFieldOfWritten("", 1, rest, 50);
  }

  lemma RejectMalformedSpanId()
    ensures var s := TRACE_ID + "-" + SPAN_ID[..15] + "?";
            Parse(s, 0, |s|) == Rejected(LogRecord(BAD_SPAN_ID, Some(17)))
  {
    HexExamples();
    var rest := "-" + SPAN_ID[..15] + "?";
    var s := TRACE_ID + "-" + SPAN_ID[..15] + "?";
    assert s == "" + WriteHexLong(1) + rest;
    HexFieldOfWritten("", 1, rest, 33);
    HexFieldRejects(s, 17, 33, 32);
  }

  /**
   * A 128-bit trace id and its hyphen filling the whole window: the span id is missing,
   * and that is reported with the span-id message at the window's end.
   */
  lemma RejectMissingSpanIdAfterWideTraceId()
    ensures var s := TRACE_ID_HIGH + TRACE_ID + "-";
            Parse(s, 0, |s|) == Rejected(LogRecord(BAD_SPAN_ID, Some(33)))
  {
    HexExamples();
    var s := TRACE_ID_HIGH + TRACE_ID + "-";
    assert s == "" + WriteHexLong(9) + (TRACE_ID + "-");
    HexFieldOfWritten("", 9, TRACE_ID + "-", 33);
    assert s == TRACE_ID_HIGH + WriteHexLong(1) + "-";
    HexFieldOfWritten(TRACE_ID_HIGH, 1, "-", 33);
    assert Parse(s, 0, 33) == ParseSpanId(s, 33, 33, 9, 1);
  }

  lemma RejectSpanIdTooLong()
    ensures var s := TRACE_ID + "-" + SPAN_ID + "a";
            Parse(s, 0, |s|) == Rejected(LogRecord(SPAN_ID_TOO_LONG, None))
  {
    IdsHandOver("a");
  }

  lemma RejectMalformedParentIds()
    ensures var s := TRACE_ID + "-" + SPAN_ID + "-1-" + PARENT_ID[..15] + "?";
            Parse(s, 0, |s|) == Rejected(LogRecord(BAD_PARENT_ID, Some(36)))
    ensures var s := TRACE_ID + "-" + SPAN_ID + "-" + PARENT_ID[..15] + "?";
            Parse(s, 0, |s|) == Rejected(LogRecord(BAD_PARENT_ID, Some(34)))
  {
    var sampled := "-1-" + PARENT_ID[..15] + "?";
    IdsHandOver(sampled);
    assert TRACE_ID + "-" + SPAN_ID + sampled == TRACE_ID + "-" + SPAN_ID + "-1-" + PARENT_ID[..15] + "?";
    HexFieldRejects(TRACE_ID + "-" + SPAN_ID + sampled, 36, 52, 51);
    var undecided := "-" + PARENT_ID[..15] + "?";
    IdsHandOver(undecided);
    assert TRACE_ID + "-" + SPAN_ID + undecided == TRACE_ID + "-" + SPAN_ID + "-" + PARENT_ID[..15] + "?";
    HexFieldRejects(TRACE_ID + "-" + SPAN_ID + undecided, 34, 50, 49);
  }

  lemma RejectMissingHyphenBeforeParent()
    ensures var s := TRACE_ID + "-" + SPAN_ID + "-1!" + PARENT_ID;
            Parse(s, 0, |s|) == Rejected(LogRecord(EXPECTED_HYPHEN, Some(35)))
  {
    IdsHandOver("-1!" + PARENT_ID);
    assert TRACE_ID + "-" + SPAN_ID + ("-1!" + PARENT_ID) == TRACE_ID + "-" + SPAN_ID + "-1!" + PARENT_ID;
  }

  lemma RejectParentIdTooLong()
    ensures var s := TRACE_ID + "-" + SPAN_ID + "-" + PARENT_ID + "a";
            Parse(s, 0, |s|) == Rejected(LogRecord(PARENT_ID_TOO_LONG, None))
  {
    HexExamples();
    var suffix := "-" + PARENT_ID + "a";
    var s := TRACE_ID + "-" + SPAN_ID + suffix;
    IdsHandOver(suffix);
    assert s == (TRACE_ID + "-" + SPAN_ID + "-") + WriteHexLong(2) + "a";
    HexFieldOfWritten(TRACE_ID + "-" + SPAN_ID + "-", 2, "a", |s|);
    assert s == TRACE_ID + "-" + SPAN_ID + "-" + PARENT_ID + "a";
  }
}
