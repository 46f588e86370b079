/**
 * What the codec promises across calls: parsing undoes writing, writing a
 * parsed context gives back its canonical spelling, and a window of a larger
 * string parses like the window alone with offsets moved.
 */
module B3SingleFormatProperties {
  import opened Wrappers
  import opened LowerHex
  import opened TraceContexts
  import opened Platforms
  import opened B3SingleFormat

  // ------------------------------------------------------------- regrouping

  /** Concatenation regrouped, so proofs can name the parts of a written string. */
  lemma Regroup3(a: string, b: string, c: string)
    ensures a + b + c == a + (b + c)
  {
  }

  lemma Regroup5(a: string, b: string, c: string, d: string, e: string)
    ensures a + b + c + d + e == a + (b + c + d + e)
    ensures a + b + c + d + e == a + b + (c + d + e)
  {
  }

  lemma Regroup6(a: string, b: string, c: string, d: string, e: string, f: string)
    ensures a + b + c + d + e + f == a + b + c + (d + e + f)
  {
  }

  /** A string is its first 16 characters, a separator, and the rest. */
  lemma SplitNarrow(s: string)
    requires |s| > 16
    ensures s == s[0..16] + [s[16]] + s[17..]
  {
  }

  /** A string is two 16-character halves, a separator, and the rest. */
  lemma SplitWide(s: string)
    requires |s| > 32
    ensures s == s[0..16] + s[16..32] + [s[32]] + s[33..]
  {
  }

  /** The tail of a string from i is its slice up to j followed by its tail from j. */
  lemma SplitAt(s: string, i: nat, j: nat)
    requires i <= j <= |s|
    ensures s[i..] == s[i..j] + s[j..]
  {
  }

  // ------------------------------------------------------------- round trip

  /** The sampling character written for a decided context reads back as the same decision. */
  lemma SamplingRoundTrip(c: TraceContext)
    requires c.Valid() && c.sampled.Some?
    ensures ParseSampling(SamplingChar(c.sampled.value, c.debug)).Some?
    ensures var f := ParseSampling(SamplingChar(c.sampled.value, c.debug)).value;
            f.sampled() == c.sampled && f.debug() == c.debug
  {
  }

  /** After the span id of an undecided context: nothing, or "-" and the parent id. */
  lemma UndecidedRoundTrip(c: TraceContext, prefix: string)
    requires c.Valid() && c.sampled.None?
    ensures var s := prefix + ParentIdField(c.parentId);
            ParseAfterSpanId(s, |prefix|, |s|, c.(parentId := None, sampled := None, debug := false))
              == Parsed(FromContext(c))
  {
    if c.parentId.Some? {
      var s := prefix + ParentIdField(c.parentId);
      var p := c.parentId.value;
      var pos := |prefix|;
      assert s == (prefix + "-") + WriteHexLong(p) + "";
      assert s[pos] == '-' && s[pos + 2] == WriteHexLong(p)[1];
      HexFieldOfWritten(prefix + "-", p, "", |s|);
      var base := c.(parentId := None);
      assert ParseAfterSpanId(s, pos, |s|, base) == ParseParentId(s, pos + 1, |s|, base);
    }
  }

  /** After the span id of a decided context: the sampling character, then maybe "-" and the parent id. */
  lemma DecidedRoundTrip(c: TraceContext, prefix: string)
    requires c.Valid() && c.sampled.Some?
    ensures var s := prefix + SampledField(c) + ParentIdField(c.parentId);
            ParseAfterSpanId(s, |prefix|, |s|, c.(parentId := None, sampled := None, debug := false))
              == Parsed(FromContext(c))
  {
    var s := prefix + SampledField(c) + ParentIdField(c.parentId);
    var pos := |prefix|;
    var base := c.(parentId := None, sampled := None, debug := false);
    SamplingRoundTrip(c);
    var decided := c.(parentId := None);
    assert s[pos] == '-' && s[pos + 1] == SamplingChar(c.sampled.value, c.debug);
    if c.parentId.Some? {
      var p := c.parentId.value;
      assert s == (prefix + SampledField(c) + "-") + WriteHexLong(p) + "";
      assert s[pos + 2] == '-';
      HexFieldOfWritten(prefix + SampledField(c) + "-", p, "", |s|);
      assert ParseAfterSpanId(s, pos, |s|, base) == ParseParentId(s, pos + 3, |s|, decided);
    }
  }

  /** Everything after the span id reads back: sampling, parent id, both or neither. */
  lemma AfterSpanIdRoundTrip(c: TraceContext, prefix: string)
    requires c.Valid()
    ensures var s := prefix + SampledField(c) + ParentIdField(c.parentId);
            ParseAfterSpanId(s, |prefix|, |s|, c.(parentId := None, sampled := None, debug := false))
              == Parsed(FromContext(c))
  {
    if c.sampled.None? {
      assert prefix + SampledField(c) + ParentIdField(c.parentId) == prefix + ParentIdField(c.parentId);
      UndecidedRoundTrip(c, prefix);
    } else {
      DecidedRoundTrip(c, prefix);
    }
  }

  /** The span id and everything after it read back. */
  lemma SpanIdRoundTrip(c: TraceContext, prefix: string)
    requires c.Valid()
    ensures var s := prefix + WriteHexLong(c.spanId) + SampledField(c) + ParentIdField(c.parentId);
            ParseSpanId(s, |prefix|, |s|, c.traceIdHigh, c.traceId) == Parsed(FromContext(c))
  {
    var span, samp, par := WriteHexLong(c.spanId), SampledField(c), ParentIdField(c.parentId);
    var s := prefix + span + samp + par;
    Regroup3(prefix + span, samp, par);
    HexFieldOfWritten(prefix, c.spanId, samp + par, |s|);
    var base := TraceContext(c.traceIdHigh, c.traceId, c.spanId, None, None, false);
    assert base == c.(parentId := None, sampled := None, debug := false);
    assert ParseSpanId(s, |prefix|, |s|, c.traceIdHigh, c.traceId) == ParseAfterSpanId(s, |prefix| + 16, |s|, base);
    AfterSpanIdRoundTrip(c, prefix + span);
  }

  /** A written 64-bit trace id reads back and hands over to the span id. */
  lemma NarrowTraceIdRoundTrip(traceId: U64, rest: string)
    requires traceId != 0
    requires |rest| >= 17 && rest[0] == '-' && IsLowerHex(rest[16])
    ensures var s := WriteHexLong(traceId) + rest;
            ParseTraceInfo(s, 0, |s|) == ParseSpanId(s, 17, |s|, 0, traceId)
  {
    var s := WriteHexLong(traceId) + rest;
    assert s[32] == rest[16];
    assert s == "" + WriteHexLong(traceId) + rest;
    HexFieldOfWritten("", traceId, rest, |s|);
    assert s[16] == '-';
  }

  /** A written 128-bit trace id reads back and hands over to the span id. */
  lemma WideTraceIdRoundTrip(traceIdHigh: U64, traceId: U64, rest: string)
    requires traceId != 0
    requires |rest| >= 17 && rest[0] == '-'
    ensures var s := WriteHexLong(traceIdHigh) + WriteHexLong(traceId) + rest;
            ParseTraceInfo(s, 0, |s|) == ParseSpanId(s, 33, |s|, traceIdHigh, traceId)
  {
    var s := WriteHexLong(traceIdHigh) + WriteHexLong(traceId) + rest;
    assert s[32] == '-';
    assert s == "" + WriteHexLong(traceIdHigh) + (WriteHexLong(traceId) + rest);
    HexFieldOfWritten("", traceIdHigh, WriteHexLong(traceId) + rest, |s|);
    HexFieldOfWritten(WriteHexLong(traceIdHigh), traceId, rest, |s|);
  }

  /** A written trace id, 64- or 128-bit, reads back and hands over to the span id. */
  lemma TraceIdRoundTrip(c: TraceContext, rest: string)
    requires c.traceId != 0
    requires |rest| >= 17 && rest[0] == '-' && IsLowerHex(rest[16])
    ensures var s := TraceIdField(c) + rest;
            ParseTraceInfo(s, 0, |s|) == ParseSpanId(s, |TraceIdField(c)| + 1, |s|, c.traceIdHigh, c.traceId)
  {
    if c.traceIdHigh != 0 {
      assert TraceIdField(c) + rest == WriteHexLong(c.traceIdHigh) + WriteHexLong(c.traceId) + rest;
      WideTraceIdRoundTrip(c.traceIdHigh, c.traceId, rest);
    } else {
      assert TraceIdField(c) + rest == WriteHexLong(c.traceId) + rest;
      NarrowTraceIdRoundTrip(c.traceId, rest);
    }
  }

  /** Parsing what was written gives back the same context, field for field. */
  lemma RoundTrip(c: TraceContext)
    requires c.Valid()
    ensures Parse(Write(c), 0, |Write(c)|) == Parsed(FromContext(c))
  {
    var traceId, span := TraceIdField(c), WriteHexLong(c.spanId);
    var samp, par := SampledField(c), ParentIdField(c.parentId);
    var rest := "-" + span + samp + par;
    assert Write(c) == traceId + "-" + span + samp + par;
    Regroup5(traceId, "-", span, samp, par);
    assert rest[16] == span[15];
    TraceIdRoundTrip(c, rest);
    SpanIdRoundTrip(c, traceId + "-");
  }

  /** The without-parent-id form reads back as the context with its parent id dropped. */
  lemma RoundTripWithoutParentId(c: TraceContext)
    requires c.Valid()
    ensures var s := WriteWithoutParentId(c);
            Parse(s, 0, |s|) == Parsed(FromContext(c.(parentId := None)))
  {
    assert WriteWithoutParentId(c) == Write(c.(parentId := None));
    RoundTrip(c.(parentId := None));
  }

  // ------------------------------------------------------- window parsing

  /** Moves a diagnostic's offset by `offset`; a successful parse is unchanged. */
  function Shift(r: ParseOutcome, offset: nat): ParseOutcome {
    if r.Rejected? && r.record.arg.Some? then Rejected(r.record.(arg := Some(r.record.arg.value + offset)))
    else r
  }

  lemma ParentIdWindow(input: string, begin: nat, pos: nat, end: nat, context: TraceContext)
    requires begin <= pos && pos + 16 <= end <= |input|
    requires context.Valid() && context.parentId.None?
    ensures ParseParentId(input, pos, end, context)
            == Shift(ParseParentId(input[begin..end], pos - begin, end - begin, context), begin)
  {
    HexFieldWindow(input, begin, end, pos);
  }

  lemma SampledFieldWindow(input: string, begin: nat, pos: nat, end: nat, context: TraceContext)
    requires begin <= pos < end <= |input|
    requires context.Valid() && context.parentId.None? && context.sampled.None? && !context.debug
    ensures ParseSampledField(input, pos, end, context)
            == Shift(ParseSampledField(input[begin..end], pos - begin, end - begin, context), begin)
  {
    var w := input[begin..end];
    assert w[pos - begin] == input[pos];
    var flags := ParseSampling(input[pos]);
    if flags.Some? && pos + 1 < end {
      assert w[pos + 1 - begin] == input[pos + 1];
      if end >= pos + 1 + 17 && input[pos + 1] == '-' {
        var decided := context.(sampled := flags.value.sampled(), debug := flags.value.debug());
        ParentIdWindow(input, begin, pos + 2, end, decided);
      }
    }
  }

  lemma AfterSpanIdWindow(input: string, begin: nat, pos: nat, end: nat, context: TraceContext)
    requires begin <= pos <= end <= |input|
    requires context.Valid() && context.parentId.None? && context.sampled.None? && !context.debug
    ensures ParseAfterSpanId(input, pos, end, context)
            == Shift(ParseAfterSpanId(input[begin..end], pos - begin, end - begin, context), begin)
  {
    var w, p, n := input[begin..end], pos - begin, end - begin;
    if pos < end {
      assert w[p] == input[pos];
      if !IsLowerHex(input[pos]) && pos + 1 < end && input[pos] == '-' {
        FieldAfterSpanIdWindow(input, begin, pos, end, context);
      }
    }
  }

  /** The window lemma for the branch that reads a sampling character or a parent id. */
  lemma FieldAfterSpanIdWindow(input: string, begin: nat, pos: nat, end: nat, context: TraceContext)
    requires begin <= pos && pos + 1 < end <= |input| && input[pos] == '-'
    requires context.Valid() && context.parentId.None? && context.sampled.None? && !context.debug
    ensures ParseAfterSpanId(input, pos, end, context)
            == Shift(ParseAfterSpanId(input[begin..end], pos - begin, end - begin, context), begin)
  {
    var w, p, n := input[begin..end], pos - begin, end - begin;
    assert w[p] == input[pos];
    if pos + 2 < end {
      assert w[p + 2] == input[pos + 2];
    }
    if pos + 2 == end || !IsLowerHex(input[pos + 2]) {
      SampledFieldWindow(input, begin, pos + 1, end, context);
      AfterSpanIdIsSampledField(w, p, n, context);
      AfterSpanIdIsSampledField(input, pos, end, context);
    } else if end >= pos + 17 {
      ParentIdWindow(input, begin, pos + 1, end, context);
      AfterSpanIdIsParentId(w, p, n, context);
      AfterSpanIdIsParentId(input, pos, end, context);
    }
  }

  lemma AfterSpanIdIsSampledField(input: string, pos: nat, end: nat, context: TraceContext)
    requires pos + 1 < end <= |input| && input[pos] == '-'
    requires pos + 2 == end || !IsLowerHex(input[pos + 2])
    requires context.Valid() && context.parentId.None? && context.sampled.None? && !context.debug
    ensures ParseAfterSpanId(input, pos, end, context) == ParseSampledField(input, pos + 1, end, context)
  {
  }

  lemma AfterSpanIdIsParentId(input: string, pos: nat, end: nat, context: TraceContext)
    requires pos + 17 <= end <= |input| && input[pos] == '-' && IsLowerHex(input[pos + 2])
    requires context.Valid() && context.parentId.None? && context.sampled.None? && !context.debug
    ensures ParseAfterSpanId(input, pos, end, context) == ParseParentId(input, pos + 1, end, context)
  {
  }

  lemma SpanIdWindow(input: string, begin: nat, pos: nat, end: nat, traceIdHigh: U64, traceId: U64)
    requires begin <= pos <= end <= |input|
    requires traceId != 0
    ensures ParseSpanId(input, pos, end, traceIdHigh, traceId)
            == Shift(ParseSpanId(input[begin..end], pos - begin, end - begin, traceIdHigh, traceId), begin)
  {
    HexFieldWindow(input, begin, end, pos);
    var spanId := HexField(input, pos, end);
    if spanId.Some? && spanId.value != 0 {
      var context := TraceContext(traceIdHigh, traceId, spanId.value, None, None, false);
      assert ParseSpanId(input, pos, end, traceIdHigh, traceId) == ParseAfterSpanId(input, pos + 16, end, context);
      AfterSpanIdWindow(input, begin, pos + 16, end, context);
    }
  }

  lemma TraceInfoWindow(input: string, begin: nat, end: nat)
    requires begin + FORMAT_MIN_IDS_LENGTH <= end <= |input|
    ensures ParseTraceInfo(input, begin, end) == Shift(ParseTraceInfo(input[begin..end], 0, end - begin), begin)
  {
    var w, n := input[begin..end], end - begin;
    var wide := input[begin + 32] == '-';
    assert w[32] == input[begin + 32];
    var traceIdEnd := if wide then 32 else 16;
    assert w[traceIdEnd] == input[begin + traceIdEnd];
    HexFieldWindow(input, begin, end, begin);
    HexFieldWindow(input, begin, end, begin + traceIdEnd - 16);
    var traceIdHigh := if wide then HexField(w, 0, n) else Some(0);
    var traceId := HexField(w, traceIdEnd - 16, n);
    if traceIdHigh.Some? && traceId.Some? && traceId.value != 0
      && !IsLowerHex(w[traceIdEnd]) && w[traceIdEnd] == '-'
    {
      assert ParseTraceInfo(w, 0, n) == ParseSpanId(w, traceIdEnd + 1, n, traceIdHigh.value, traceId.value);
      assert ParseTraceInfo(input, begin, end)
          == ParseSpanId(input, begin + traceIdEnd + 1, end, traceIdHigh.value, traceId.value);
      SpanIdWindow(input, begin, begin + traceIdEnd + 1, end, traceIdHigh.value, traceId.value);
    }
  }

  /**
   * Parsing the window [begin, end) of a string is parsing that window on its
   * own, except that diagnostic offsets count from the start of the string.
   */
  lemma ParseWindow(input: string, begin: nat, end: nat)
    requires begin <= end <= |input|
    ensures Parse(input, begin, end) == Shift(Parse(input[begin..end], 0, end - begin), begin)
  {
    if end - begin == 1 {
      assert input[begin..end][0] == input[begin];
    } else if end - begin >= FORMAT_MIN_IDS_LENGTH {
      TraceInfoWindow(input, begin, end);
    }
  }

  /**
   * A value embedded in a larger header (as one entry of a list-valued
   * header) parses as the value alone: the same result, the same diagnostic
   * moved by the length of what precedes it.
   */
  lemma ParseEmbedded(prefix: string, value: string, suffix: string)
    ensures var input := prefix + value + suffix;
            Parse(input, |prefix|, |prefix| + |value|) == Shift(Parse(value, 0, |value|), |prefix|)
  {
    var input := prefix + value + suffix;
    assert input[|prefix|..|prefix| + |value|] == value;
    ParseWindow(input, |prefix|, |prefix| + |value|);
  }

  // --------------------------------------------------------- canonical form

  /** A parent id that parses is the rest of the input, spelled as it is written. */
  lemma ParentIdCanonical(s: string, pos: nat, context: TraceContext)
    requires pos + 16 <= |s|
    requires context.Valid() && context.parentId.None?
    requires ParseParentId(s, pos, |s|, context).Parsed?
    ensures var c := ParseParentId(s, pos, |s|, context).value.context;
            c.parentId.Some? && s[pos..] == WriteHexLong(c.parentId.value)
  {
    HexFieldSpells(s, pos, |s|);
  }

  /** A sampling field that parses is the rest of the input, spelled as it is written. */
  lemma SampledFieldCanonical(s: string, pos: nat, context: TraceContext)
    requires 0 < pos < |s| && s[pos - 1] == '-'
    requires context.Valid() && context.parentId.None? && context.sampled.None? && !context.debug
    requires ParseSampledField(s, pos, |s|, context).Parsed?
    ensures var c := ParseSampledField(s, pos, |s|, context).value.context;
            c.(parentId := None, sampled := None, debug := false) == context
            && s[pos - 1..] == SampledField(c) + ParentIdField(c.parentId)
  {
    var flags := ParseSampling(s[pos]).value;
    var decided := context.(sampled := flags.sampled(), debug := flags.debug());
    var c := ParseSampledField(s, pos, |s|, context).value.context;
    assert SampledField(decided) == [s[pos - 1], s[pos]];
    if pos + 1 == |s| {
      assert s[pos - 1..] == [s[pos - 1], s[pos]];
    } else {
      ParentIdCanonical(s, pos + 2, decided);
      assert c == decided.(parentId := c.parentId);
      assert s[pos - 1..] == [s[pos - 1], s[pos]] + ("-" + s[pos + 2..]);
    }
  }

  /** Whatever follows the span id, once it parses, is spelled as it is written. */
  lemma AfterSpanIdCanonical(s: string, pos: nat, context: TraceContext)
    requires pos <= |s|
    requires context.Valid() && context.parentId.None? && context.sampled.None? && !context.debug
    requires ParseAfterSpanId(s, pos, |s|, context).Parsed?
    ensures var c := ParseAfterSpanId(s, pos, |s|, context).value.context;
            c.(parentId := None, sampled := None, debug := false) == context
            && s[pos..] == SampledField(c) + ParentIdField(c.parentId)
  {
    if pos < |s| {
      if pos + 2 == |s| || !IsLowerHex(s[pos + 2]) {
        SampledFieldCanonical(s, pos + 1, context);
      } else {
        ParentIdCanonical(s, pos + 1, context);
        assert s[pos..] == "-" + s[pos + 1..];
      }
    }
  }

  /** A span id and its tail, once they parse, are spelled as they are written. */
  lemma SpanIdCanonical(s: string, pos: nat, traceIdHigh: U64, traceId: U64)
    requires pos <= |s| && traceId != 0
    requires ParseSpanId(s, pos, |s|, traceIdHigh, traceId).Parsed?
    ensures var c := ParseSpanId(s, pos, |s|, traceIdHigh, traceId).value.context;
            s[pos..] == WriteHexLong(c.spanId) + SampledField(c) + ParentIdField(c.parentId)
  {
    HexFieldSpells(s, pos, |s|);
    var spanId := HexField(s, pos, |s|).value;
    var base := TraceContext(traceIdHigh, traceId, spanId, None, None, false);
    assert ParseSpanId(s, pos, |s|, traceIdHigh, traceId) == ParseAfterSpanId(s, pos + 16, |s|, base);
    AfterSpanIdCanonical(s, pos + 16, base);
    SplitAt(s, pos, pos + 16);
    var c := ParseSpanId(s, pos, |s|, traceIdHigh, traceId).value.context;
    Regroup3(WriteHexLong(c.spanId), SampledField(c), ParentIdField(c.parentId));
  }

  /** A 64-bit trace id, once the whole input parses, is spelled as it is written. */
  lemma NarrowTraceInfoCanonical(s: string)
    requires |s| >= FORMAT_MIN_IDS_LENGTH && s[32] != '-'
    requires ParseTraceInfo(s, 0, |s|).Parsed?
    ensures var c := ParseTraceInfo(s, 0, |s|).value.context;
            c.traceIdHigh == 0
            && s == WriteHexLong(c.traceId) + "-" + WriteHexLong(c.spanId) + SampledField(c) + ParentIdField(c.parentId)
  {
    HexFieldSpells(s, 0, |s|);
    var traceId := HexField(s, 0, |s|).value;
    assert ParseTraceInfo(s, 0, |s|) == ParseSpanId(s, 17, |s|, 0, traceId);
    SpanIdCanonical(s, 17, 0, traceId);
    var c := ParseTraceInfo(s, 0, |s|).value.context;
    SplitNarrow(s);
    assert [s[16]] == "-";
    Regroup5(WriteHexLong(c.traceId), "-", WriteHexLong(c.spanId), SampledField(c), ParentIdField(c.parentId));
  }

  /** A 128-bit trace id, once the whole input parses, is spelled as it is written. */
  lemma WideTraceInfoCanonical(s: string)
    requires |s| >= FORMAT_MIN_IDS_LENGTH && s[32] == '-'
    requires ParseTraceInfo(s, 0, |s|).Parsed?
    ensures var c := ParseTraceInfo(s, 0, |s|).value.context;
            s == WriteHexLong(c.traceIdHigh) + WriteHexLong(c.traceId) + "-" + WriteHexLong(c.spanId)
                 + SampledField(c) + ParentIdField(c.parentId)
  {
    HexFieldSpells(s, 0, |s|);
    HexFieldSpells(s, 16, |s|);
    var high, low := HexField(s, 0, |s|).value, HexField(s, 16, |s|).value;
    assert ParseTraceInfo(s, 0, |s|) == ParseSpanId(s, 33, |s|, high, low);
    SpanIdCanonical(s, 33, high, low);
    var c := ParseTraceInfo(s, 0, |s|).value.context;
    SplitWide(s);
    assert [s[32]] == "-";
    Regroup6(WriteHexLong(high), WriteHexLong(low), "-", WriteHexLong(c.spanId), SampledField(c), ParentIdField(c.parentId));
  }

  /** Writing the context parsed from trace-info gives the input back, unless its high half was zero. */
  lemma TraceInfoThenWrite(s: string)
    requires |s| >= FORMAT_MIN_IDS_LENGTH && ParseTraceInfo(s, 0, |s|).Parsed?
    ensures var c := ParseTraceInfo(s, 0, |s|).value.context;
            Write(c) == s <==> s[32] != '-' || c.traceIdHigh != 0
  {
    var c := ParseTraceInfo(s, 0, |s|).value.context;
    assert Write(c) == TraceIdField(c) + "-" + WriteHexLong(c.spanId) + SampledField(c) + ParentIdField(c.parentId);
    if s[32] == '-' {
      WideTraceInfoCanonical(s);
      if c.traceIdHigh == 0 {
        assert |Write(c)| == |s| - 16;
      }
    } else {
      NarrowTraceInfoCanonical(s);
      assert TraceIdField(c) == WriteHexLong(c.traceId);
    }
  }

  /**
   * Writing a context that was parsed from a whole string gives back that
   * string, except exactly when it carried a 128-bit trace id whose high half
   * is zero: that one is written back in 16 characters.
   */
  lemma ParseThenWrite(s: string)
    requires Parse(s, 0, |s|).Parsed? && Parse(s, 0, |s|).value.FromContext?
    ensures |s| >= FORMAT_MIN_IDS_LENGTH
    ensures var c := Parse(s, 0, |s|).value.context;
            Write(c) == s <==> s[32] != '-' || c.traceIdHigh != 0
  {
    assert Parse(s, 0, |s|) == ParseTraceInfo(s, 0, |s|);
    TraceInfoThenWrite(s);
  }
}
