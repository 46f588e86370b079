/**
 * Fixed-width lower-case hexadecimal encoding of unsigned 64-bit identifiers,
 * as used by every id field of the B3 single header.
 */
module LowerHex {
  import opened Wrappers

  /** 2^64: every identifier is an unsigned 64-bit value. */
  const U64_BOUND: nat := 0x1_0000_0000_0000_0000

  type U64 = x: nat | x < U64_BOUND

  const DIGITS: string := "0123456789abcdef"

  predicate IsLowerHex(c: char) {
    '0' <= c <= '9' || 'a' <= c <= 'f'
  }

  predicate AllLowerHex(s: string) {
    forall i :: 0 <= i < |s| ==> IsLowerHex(s[i])
  }

  /** The character written for a nibble. */
  function Digit(v: nat): (c: char)
    requires v < 16
    ensures IsLowerHex(c)
  {
    DIGITS[v]
  }

  /** The nibble a lower-hex character stands for. */
  function DigitValue(c: char): (v: nat)
    requires IsLowerHex(c)
    ensures v < 16 && Digit(v) == c
  {
    if c <= '9' then (c as int) - ('0' as int) else (c as int) - ('a' as int) + 10
  }

  function Pow16(n: nat): (p: nat)
    ensures p > 0
  {
    if n == 0 then 1 else 16 * Pow16(n - 1)
  }

  lemma Pow16Is64Bit()
    ensures Pow16(16) == U64_BOUND
  {
    assert Pow16(4) == 0x1_0000;
    assert Pow16(8) == 0x1_0000_0000 by {
      assert Pow16(8) == 16 * 16 * 16 * 16 * Pow16(4);
    }
    assert Pow16(12) == 0x1_0000_0000_0000 by {
      assert Pow16(12) == 16 * 16 * 16 * 16 * Pow16(8);
    }
    assert Pow16(16) == 16 * 16 * 16 * 16 * Pow16(12);
  }

  /** `width` lower-hex characters for `v`, zero padded, most significant first. */
  function Encode(v: nat, width: nat): (s: string)
    ensures |s| == width && AllLowerHex(s)
  {
    if width == 0 then "" else Encode(v / 16, width - 1) + [Digit(v % 16)]
  }

  /** The value of a run of lower-hex characters read most significant first. */
  function Decode(s: string): (v: nat)
    requires AllLowerHex(s)
    ensures v < Pow16(|s|)
  {
    if s == [] then 0
    else
      var prefix := Decode(s[..|s| - 1]);
      assert prefix <= Pow16(|s| - 1) - 1;
      prefix * 16 + DigitValue(s[|s| - 1])
  }

  /** The 16 characters written for one 64-bit id (writeHexLong). */
  function WriteHexLong(v: U64): (s: string)
    ensures |s| == 16 && AllLowerHex(s)
  {
    Encode(v, 16)
  }

  /** Decoding undoes encoding for every value that fits the width. */
  lemma {:induction false} DecodeEncode(v: nat, width: nat)
    requires v < Pow16(width)
    ensures Decode(Encode(v, width)) == v
  {
    if width > 0 {
      var q, d := v / 16, v % 16;
      assert q < Pow16(width - 1) by {
        assert Pow16(width) == 16 * Pow16(width - 1);
      }
      DecodeEncode(q, width - 1);
      DecodeAppend(Encode(q, width - 1), Digit(d));
    }
  }

  /** Encoding undoes decoding: a lower-hex run is the canonical spelling of its value. */
  lemma {:induction false} EncodeDecode(s: string)
    requires AllLowerHex(s)
    ensures Encode(Decode(s), |s|) == s
  {
    if s != [] {
      var n := |s| - 1;
      var v := Decode(s);
      assert v / 16 == Decode(s[..n]) && v % 16 == DigitValue(s[n]);
      EncodeDecode(s[..n]);
      assert s == s[..n] + [s[n]];
    }
  }

  /** Reading one more character shifts the value one nibble left. */
  lemma DecodeAppend(s: string, c: char)
    requires AllLowerHex(s) && IsLowerHex(c)
    ensures AllLowerHex(s + [c]) && Decode(s + [c]) == Decode(s) * 16 + DigitValue(c)
  {
    assert (s + [c])[..|s|] == s;
  }

  /** writeHexLong round-trips every 64-bit value. */
  lemma WriteHexLongDecodes(v: U64)
    ensures Decode(WriteHexLong(v)) == v
  {
    Pow16Is64Bit();
    DecodeEncode(v, 16);
  }

  /**
   * Reads the `n` characters at `input[pos..]` as lower hex, most significant
   * first, giving None as soon as one of them is not lower hex.
   */
  function DecodeRun(input: string, pos: nat, n: nat): Option<nat>
    requires pos + n <= |input|
  {
    if n == 0 then Some(0) else ReadDigit(DecodeRun(input, pos, n - 1), input[pos + n - 1])
  }

  /** One reading step: the value so far shifted by a nibble, or None once a character is not lower hex. */
  function ReadDigit(sofar: Option<nat>, c: char): Option<nat> {
    match sofar
    case None => None
    case Some(prefix) => if IsLowerHex(c) then Some(prefix * 16 + DigitValue(c)) else None
  }

  /** A run of `n` characters holds a value below 16^n. */
  lemma {:induction false} DecodeRunBound(input: string, pos: nat, n: nat)
    requires pos + n <= |input|
    ensures DecodeRun(input, pos, n).Some? ==> DecodeRun(input, pos, n).value < Pow16(n)
  {
    if n > 0 {
      DecodeRunBound(input, pos, n - 1);
    }
  }

  /** The run reader accepts exactly the lower-hex runs, and reads them as Decode does. */
  lemma DecodeRunIsDecode(input: string, pos: nat, n: nat)
    requires pos + n <= |input|
    ensures DecodeRun(input, pos, n)
            == if AllLowerHex(input[pos..pos + n]) then Some(Decode(input[pos..pos + n])) else None
  {
    DecodeRunIsCheckedDecode(input, pos, n);
  }

  /** Decode, or None when some character is not lower hex. */
  ghost function CheckedDecode(s: string): Option<nat> {
    if AllLowerHex(s) then Some(Decode(s)) else None
  }

  /** Checking and decoding one more character extends the value by one nibble. */
  lemma CheckedDecodeAppend(s: string, c: char)
    ensures CheckedDecode(s + [c]) == ReadDigit(CheckedDecode(s), c)
  {
    AllLowerHexAppend(s, c);
    if AllLowerHex(s) && IsLowerHex(c) {
      DecodeAppend(s, c);
    }
  }

  /** CheckedDecodeAppend, stated for a string already known to be one character longer. */
  lemma CheckedDecodeStep(run: string, shorter: string, c: char, sofar: Option<nat>)
    requires run == shorter + [c] && sofar == CheckedDecode(shorter)
    ensures ReadDigit(sofar, c) == CheckedDecode(run)
  {
    CheckedDecodeAppend(shorter, c);
  }

  /** DecodeRunIsDecode by induction on the run length, one character per step. */
  lemma {:induction false} DecodeRunIsCheckedDecode(input: string, pos: nat, n: nat)
    requires pos + n <= |input|
    ensures DecodeRun(input, pos, n) == CheckedDecode(input[pos..pos + n])
  {
    if n == 0 {
      assert input[pos..pos] == [];
    } else {
      DecodeRunIsCheckedDecode(input, pos, n - 1);
      SliceExtend(input, pos, pos + n);
      var shorter, c := input[pos..pos + n - 1], input[pos + n - 1];
      assert DecodeRun(input, pos, n) == ReadDigit(DecodeRun(input, pos, n - 1), c);
      CheckedDecodeStep(input[pos..pos + n], shorter, c, DecodeRun(input, pos, n - 1));
    }
  }

  /** A slice is the slice one shorter followed by its last character. */
  lemma SliceExtend(s: string, i: nat, j: nat)
    requires i < j <= |s|
    ensures s[i..j] == s[i..j - 1] + [s[j - 1]]
  {
  }

  /** A string with one more character is lower hex iff both parts are. */
  lemma AllLowerHexAppend(s: string, c: char)
    ensures AllLowerHex(s + [c]) <==> AllLowerHex(s) && IsLowerHex(c)
  {
    if AllLowerHex(s + [c]) {
      assert (s + [c])[|s|] == c;
      forall i | 0 <= i < |s|
        ensures IsLowerHex(s[i])
      {
        assert (s + [c])[i] == s[i];
      }
    }
  }

  /** A run reads the same wherever the string it sits in is cut. */
  lemma {:induction false} DecodeRunWindow(input: string, begin: nat, end: nat, pos: nat, n: nat)
    requires begin <= pos && pos + n <= end <= |input|
    ensures DecodeRun(input, pos, n) == DecodeRun(input[begin..end], pos - begin, n)
  {
    if n > 0 {
      DecodeRunWindow(input, begin, end, pos, n - 1);
      assert input[begin..end][pos - begin + n - 1] == input[pos + n - 1];
    }
  }

  /**
   * The value of the 16 characters at `input[pos..pos + 16]`, or None when
   * fewer than 16 characters remain before `end` or one of them is not lower hex.
   */
  function HexField(input: string, pos: nat, end: nat): Option<U64>
    requires end <= |input|
  {
    if pos + 16 <= end then
      match DecodeRun(input, pos, 16)
      case None => None
      case Some(v) => DecodeRunBound(input, pos, 16); Pow16Is64Bit(); Some(v)
    else None
  }

  /** A written id field is read back by HexField wherever it sits. */
  lemma HexFieldOfWritten(prefix: string, v: U64, suffix: string, end: nat)
    requires |prefix| + 16 <= end <= |prefix| + 16 + |suffix|
    ensures HexField(prefix + WriteHexLong(v) + suffix, |prefix|, end) == Some(v)
  {
    var s := prefix + WriteHexLong(v) + suffix;
    assert s[|prefix|..|prefix| + 16] == WriteHexLong(v);
    DecodeRunIsDecode(s, |prefix|, 16);
    WriteHexLongDecodes(v);
  }

  /** A field reads exactly when its 16 characters are lower hex, and reads as their value. */
  lemma HexFieldIsDecode(input: string, pos: nat, end: nat)
    requires end <= |input|
    ensures HexField(input, pos, end).Some? <==> pos + 16 <= end && AllLowerHex(input[pos..pos + 16])
    ensures HexField(input, pos, end).Some? ==> HexField(input, pos, end).value == Decode(input[pos..pos + 16])
  {
    if pos + 16 <= end {
      DecodeRunIsDecode(input, pos, 16);
    }
  }

  /** A field that reads as v is spelled exactly as v is written. */
  lemma HexFieldSpells(input: string, pos: nat, end: nat)
    requires end <= |input| && HexField(input, pos, end).Some?
    ensures pos + 16 <= end && input[pos..pos + 16] == WriteHexLong(HexField(input, pos, end).value)
  {
    DecodeRunIsDecode(input, pos, 16);
    var field := input[pos..pos + 16];
    assert HexField(input, pos, end).value == Decode(field);
    EncodeDecode(field);
  }

  /** A field with a character that is not lower hex is rejected. */
  lemma HexFieldRejects(input: string, pos: nat, end: nat, k: nat)
    requires pos <= k < pos + 16 <= end <= |input| && !IsLowerHex(input[k])
    ensures HexField(input, pos, end).None?
  {
    DecodeRunIsDecode(input, pos, 16);
    assert input[pos..pos + 16][k - pos] == input[k];
    assert !AllLowerHex(input[pos..pos + 16]);
    assert DecodeRun(input, pos, 16).None?;
  }

  /** HexField of a window is HexField of the whole string at the same place. */
  lemma HexFieldWindow(input: string, begin: nat, end: nat, pos: nat)
    requires begin <= pos && begin <= end <= |input|
    ensures HexField(input, pos, end) == HexField(input[begin..end], pos - begin, end - begin)
  {
    if pos + 16 <= end {
      DecodeRunWindow(input, begin, end, pos, 16);
    }
  }

  /**
   * Reads one 16-character id field of the window ending at end: left to
   * right, accumulating nibbles, and gives up at the first character that is
   * not lower hex.
   */
  method ParseHex16(input: string, pos: nat, end: nat) returns (r: Option<U64>)
    requires end <= |input|
    ensures r == HexField(input, pos, end)
    ensures r.Some? <==> pos + 16 <= end && AllLowerHex(input[pos..pos + 16])
    ensures r.Some? ==> r.value == Decode(input[pos..pos + 16])
  {
    if pos + 16 > end {
      return None;
    }
    var value: nat := 0;
    var i := 0;
    while i < 16
      invariant 0 <= i <= 16
      invariant DecodeRun(input, pos, i) == Some(value)
    {
      var c := input[pos + i];
      if !IsLowerHex(c) {
        DecodeRunStops(input, pos, i + 1, 16);
        HexFieldIsDecode(input, pos, end);
        return None;
      }
      value := value * 16 + DigitValue(c);
      i := i + 1;
    }
    DecodeRunBound(input, pos, 16);
    Pow16Is64Bit();
    r := Some(value);
    HexFieldIsDecode(input, pos, end);
  }

  /** Once a non-hex character has been read, no longer run is accepted. */
  lemma {:induction false} DecodeRunStops(input: string, pos: nat, i: nat, n: nat)
    requires i <= n && pos + n <= |input| && DecodeRun(input, pos, i).None?
    ensures DecodeRun(input, pos, n).None?
    decreases n - i
  {
    if i < n {
      DecodeRunStops(input, pos, i + 1, n);
    }
  }
}
