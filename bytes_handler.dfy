/**
 * The hex/ASCII dump of base64-encoded bytes: one line per 16 bytes, holding
 * the bytes as two-digit lower-case hex separated by spaces, left-justified
 * to 48 columns, a space, and the printable ASCII rendering of the bytes.
 */
module BytesHandler {
  import opened Wrappers
  import opened Text
  import Base64

  type byte = Base64.byte

  /** Bytes per dump line. */
  const BytesPerLine: nat := 16
  /** Width the hex part is padded to (`:<48`). */
  const HexWidth: nat := 48
  /** The line separator of the dump. */
  const LineBreak: char := '\n'

  const HexDigits: string := "0123456789abcdef"

  function HexDigit(d: nat): char
    requires d < 16
  {
    HexDigits[d]
  }

  /** The value of a lower-case hex digit, -1 for any other character. */
  function HexDigitValue(c: char): int {
    if '0' <= c <= '9' then c as int - '0' as int
    else if 'a' <= c <= 'f' then c as int - 'a' as int + 10
    else -1
  }

  lemma HexDigitRoundTrip(d: nat)
    requires d < 16
    ensures HexDigitValue(HexDigit(d)) == d
    ensures HexDigit(d) in HexDigits
  {
    assert HexDigits == ['0', '1', '2', '3', '4', '5', '6', '7', '8', '9', 'a', 'b', 'c', 'd', 'e', 'f'];
  }

  /** `f"{b:02x}"`. */
  function HexByte(b: byte): (h: string)
    ensures |h| == 2
  {
    [HexDigit(b / 16), HexDigit(b % 16)]
  }

  /** The two characters of a byte's hex form are lower-case hex digits that read back as the byte. */
  lemma HexByteRoundTrip(b: byte)
    ensures HexByte(b)[0] in HexDigits && HexByte(b)[1] in HexDigits
    ensures HexDigitValue(HexByte(b)[0]) * 16 + HexDigitValue(HexByte(b)[1]) == b
  {
    HexDigitRoundTrip(b / 16);
    HexDigitRoundTrip(b % 16);
  }

  function HexPairs(chunk: seq<byte>): seq<string> {
    seq(|chunk|, i requires 0 <= i < |chunk| => HexByte(chunk[i]))
  }

  /** `" ".join(f"{b:02x}" for b in chunk)`. */
  function HexPart(chunk: seq<byte>): string {
    Join(HexPairs(chunk), " ")
  }

  /** The hex part holds byte `i` at columns `3i`, `3i+1`, with a single space between neighbours. */
  lemma {:induction false} HexPartLayout(chunk: seq<byte>)
    ensures |HexPart(chunk)| == if chunk == [] then 0 else 3 * |chunk| - 1
    ensures forall i | 0 <= i < |chunk| :: HexPart(chunk)[3 * i..3 * i + 2] == HexByte(chunk[i])
    ensures forall i | 0 <= i < |chunk| - 1 :: HexPart(chunk)[3 * i + 2] == ' '
  {
    if |chunk| > 1 {
      var rest := chunk[1..];
      HexPartLayout(rest);
      assert HexPairs(chunk)[1..] == HexPairs(rest);
      var h := HexPart(chunk);
      assert h == HexByte(chunk[0]) + " " + HexPart(rest);
      forall i | 0 <= i < |chunk|
        ensures h[3 * i..3 * i + 2] == HexByte(chunk[i])
      {
        if i > 0 {
          assert h[3 * i..3 * i + 2] == HexPart(rest)[3 * (i - 1)..3 * (i - 1) + 2];
          assert chunk[i] == rest[i - 1];
        }
      }
      forall i | 0 <= i < |chunk| - 1
        ensures h[3 * i + 2] == ' '
      {
        if i > 0 {
          assert h[3 * i + 2] == HexPart(rest)[3 * (i - 1) + 2];
        }
      }
    }
  }

  /** A byte as shown in the ASCII column. */
  function PrintableChar(b: byte): char {
    if 32 <= b < 127 then b as char else '.'
  }

  /** `"".join(chr(b) if 32 <= b < 127 else "." for b in chunk)`. */
  function AsciiPart(chunk: seq<byte>): string {
    seq(|chunk|, i requires 0 <= i < |chunk| => PrintableChar(chunk[i]))
  }

  /** The ASCII column has one character per byte: the byte itself when printable, '.' otherwise, never a line break. */
  lemma AsciiPartLayout(chunk: seq<byte>)
    ensures |AsciiPart(chunk)| == |chunk|
    ensures forall i | 0 <= i < |chunk| :: 32 <= chunk[i] < 127 ==> AsciiPart(chunk)[i] as int == chunk[i]
    ensures forall i | 0 <= i < |chunk| :: !(32 <= chunk[i] < 127) ==> AsciiPart(chunk)[i] == '.'
    ensures forall i | 0 <= i < |chunk| :: ' ' <= AsciiPart(chunk)[i] <= '~'
  {
  }

  /** `f"{s:<width}"`: `s` followed by spaces up to `width` characters, never cut. */
  function LeftJustify(s: string, width: nat): (r: string)
    ensures |r| == if |s| < width then width else |s|
    ensures r[..|s|] == s
    ensures forall i | |s| <= i < |r| :: r[i] == ' '
  {
    if |s| < width then s + seq(width - |s|, _ => ' ') else s
  }

  /** `f"{hex_chunk:<48} {ascii_chunk}"`. */
  function DumpLine(chunk: seq<byte>): string {
    LeftJustify(HexPart(chunk), HexWidth) + " " + AsciiPart(chunk)
  }

  /** Every character of the hex part is a lower-case hex digit or a space. */
  lemma {:induction false} HexPartChars(chunk: seq<byte>)
    ensures forall i | 0 <= i < |HexPart(chunk)| :: HexPart(chunk)[i] in HexDigits || HexPart(chunk)[i] == ' '
  {
    if |chunk| == 1 {
      HexByteRoundTrip(chunk[0]);
      assert HexPart(chunk) == HexByte(chunk[0]);
    } else if |chunk| > 1 {
      var rest := chunk[1..];
      HexPartChars(rest);
      HexByteRoundTrip(chunk[0]);
      assert HexPairs(chunk)[1..] == HexPairs(rest);
      var h := HexPart(chunk);
      assert h == HexByte(chunk[0]) + " " + HexPart(rest);
      forall i | 0 <= i < |h|
        ensures h[i] in HexDigits || h[i] == ' '
      {
        if i >= 3 {
          assert h[i] == HexPart(rest)[i - 3];
        }
      }
    }
  }

  /**
   * A line for one to sixteen bytes: the hex part padded with spaces to 48
   * columns, a space at column 48, then one ASCII character per byte; the
   * line has no line break in it.
   */
  lemma DumpLineLayout(chunk: seq<byte>)
    requires 1 <= |chunk| <= BytesPerLine
    ensures var line := DumpLine(chunk);
      && |line| == HexWidth + 1 + |chunk|
      && line[..3 * |chunk| - 1] == HexPart(chunk)
      && (forall i | 3 * |chunk| - 1 <= i <= HexWidth :: line[i] == ' ')
      && line[HexWidth + 1..] == AsciiPart(chunk)
      && LineBreak !in line
  {
    HexPartLayout(chunk);
    var hex := HexPart(chunk);
    var padded := LeftJustify(hex, HexWidth);
    var line := padded + " " + AsciiPart(chunk);
    assert line[..HexWidth] == padded;
    assert line[HexWidth + 1..] == AsciiPart(chunk);
    DumpLineNoBreak(chunk);
  }

  lemma DumpLineNoBreak(chunk: seq<byte>)
    requires 1 <= |chunk| <= BytesPerLine
    ensures LineBreak !in DumpLine(chunk)
  {
    HexPartLayout(chunk);
    HexPartChars(chunk);
    AsciiPartLayout(chunk);
    var padded := LeftJustify(HexPart(chunk), HexWidth);
    assert forall i | 0 <= i < |padded| :: padded[i] != LineBreak by {
      assert LineBreak !in HexDigits;
      forall i | 0 <= i < |padded|
        ensures padded[i] != LineBreak
      {
        if i < |HexPart(chunk)| {
          assert padded[i] == padded[..|HexPart(chunk)|][i];
        }
      }
    }
    assert DumpLine(chunk) == padded + " " + AsciiPart(chunk);
  }

  /** The dump lines of `bytes`, one per 16-byte chunk, the last one possibly shorter. */
  function Lines(bytes: seq<byte>): seq<string>
    decreases |bytes|
  {
    if bytes == [] then []
    else if |bytes| <= BytesPerLine then [DumpLine(bytes)]
    else [DumpLine(bytes[..BytesPerLine])] + Lines(bytes[BytesPerLine..])
  }

  /** Bytes `16k` up to `16k+16`, or up to the end. */
  function Chunk(bytes: seq<byte>, k: nat): seq<byte>
    requires BytesPerLine * k <= |bytes|
  {
    bytes[BytesPerLine * k..if BytesPerLine * k + BytesPerLine < |bytes| then BytesPerLine * k + BytesPerLine else |bytes|]
  }

  /** There are ⌈n/16⌉ lines and line `k` renders the `k`-th chunk of 16 bytes. */
  lemma {:induction false} LinesShape(bytes: seq<byte>)
    ensures |Lines(bytes)| == (|bytes| + BytesPerLine - 1) / BytesPerLine
    ensures forall k: nat | k < |Lines(bytes)| :: BytesPerLine * k <= |bytes| && Lines(bytes)[k] == DumpLine(Chunk(bytes, k))
    decreases |bytes|
  {
    if |bytes| > BytesPerLine {
      var rest := bytes[BytesPerLine..];
      LinesShape(rest);
      forall k: nat | k < |Lines(bytes)|
        ensures BytesPerLine * k <= |bytes| && Lines(bytes)[k] == DumpLine(Chunk(bytes, k))
      {
        if k > 0 {
          assert Lines(bytes)[k] == Lines(rest)[k - 1];
          assert Chunk(rest, k - 1) == Chunk(bytes, k);
        } else {
          assert Chunk(bytes, 0) == bytes[..BytesPerLine];
        }
      }
    } else if bytes != [] {
      assert Chunk(bytes, 0) == bytes;
    }
  }

  /** Dropping the first chunk of a suffix of the bytes drops its first line. */
  lemma LinesStep(bytes: seq<byte>, i: nat)
    requires i < |bytes|
    ensures var end := if i + BytesPerLine < |bytes| then i + BytesPerLine else |bytes|;
      Lines(bytes[i..]) == [DumpLine(bytes[i..end])] + Lines(bytes[end..])
  {
    var end := if i + BytesPerLine < |bytes| then i + BytesPerLine else |bytes|;
    if |bytes| - i > BytesPerLine {
      assert bytes[i..][..BytesPerLine] == bytes[i..end];
      assert bytes[i..][BytesPerLine..] == bytes[end..];
    } else {
      assert bytes[i..] == bytes[i..end];
      assert bytes[end..] == [];
    }
  }

  /** The dump of the decoded bytes. */
  function HexDump(bytes: seq<byte>): string {
    Join(Lines(bytes), [LineBreak])
  }

  /** `get_ascii_bytes`: the dump of the decoded input, "" when the input is not base64. */
  function AsciiBytesOf(base64Bytes: string): string {
    match Base64.Decode(base64Bytes)
    case None => ""
    case Some(bytes) => HexDump(bytes)
  }

  /** Builds the dump lines chunk by chunk and joins them with line breaks. */
  method GetAsciiBytes(base64Bytes: string) returns (dump: string)
    ensures dump == AsciiBytesOf(base64Bytes)
    ensures Base64.Decode(base64Bytes).None? ==> dump == ""
  {
    var decoded := Base64.Decode(base64Bytes);
    if decoded.None? {
      return "";
    }
    var byteData := decoded.value;
    var result: seq<string> := [];
    var i := 0;
    while i < |byteData|
      invariant 0 <= i <= |byteData|
      invariant Lines(byteData) == result + Lines(byteData[i..])
      decreases |byteData| - i
    {
      var end := if i + BytesPerLine < |byteData| then i + BytesPerLine else |byteData|;
      var chunk := byteData[i..end];
      var hexChunk := HexPart(chunk);
      var asciiChunk := AsciiPart(chunk);
      LinesStep(byteData, i);
      result := result + [LeftJustify(hexChunk, HexWidth) + " " + asciiChunk];
      i := end;
    }
    assert byteData[i..] == [];
    assert result == Lines(byteData) by {
      assert Lines(byteData[i..]) == [];
    }
    dump := Join(result, [LineBreak]);
  }

  /** Reads the bytes back from a dump line: the hex pair in front of each ASCII column character. */
  function ParseLine(line: string): seq<int> {
    var n := if |line| >= HexWidth + 1 then |line| - HexWidth - 1 else 0;
    seq(n, i requires 0 <= i < n => if 3 * i + 1 < |line| then HexDigitValue(line[3 * i]) * 16 + HexDigitValue(line[3 * i + 1]) else 0)
  }

  function ParseLines(lines: seq<string>): seq<int> {
    if lines == [] then [] else ParseLine(lines[0]) + ParseLines(lines[1..])
  }

  /** Reads the bytes back from a dump. */
  function ParseDump(dump: string): seq<int> {
    ParseLines(Split(dump, [LineBreak]))
  }

  lemma ParseDumpLine(chunk: seq<byte>)
    requires 1 <= |chunk| <= BytesPerLine
    ensures ParseLine(DumpLine(chunk)) == chunk
  {
    DumpLineLayout(chunk);
    HexPartLayout(chunk);
    var line := DumpLine(chunk);
    var p := ParseLine(line);
    assert |p| == |chunk|;
    forall i | 0 <= i < |chunk|
      ensures p[i] == chunk[i]
    {
      HexByteRoundTrip(chunk[i]);
      assert line[3 * i..3 * i + 2] == HexPart(chunk)[3 * i..3 * i + 2];
    }
  }

  lemma {:induction false} ParseLinesOfLines(bytes: seq<byte>)
    ensures ParseLines(Lines(bytes)) == bytes
    ensures forall k | 0 <= k < |Lines(bytes)| :: LineBreak !in Lines(bytes)[k]
    decreases |bytes|
  {
    if bytes == [] {
    } else if |bytes| <= BytesPerLine {
      ParseDumpLine(bytes);
      DumpLineLayout(bytes);
      assert Lines(bytes)[1..] == [];
    } else {
      var rest := bytes[BytesPerLine..];
      ParseLinesOfLines(rest);
      ParseDumpLine(bytes[..BytesPerLine]);
      DumpLineLayout(bytes[..BytesPerLine]);
      assert Lines(bytes)[1..] == Lines(rest);
      assert bytes == bytes[..BytesPerLine] + rest;
    }
  }

  /**
   * The dump is "" for no bytes; otherwise it splits at its line breaks into
   * exactly the ⌈n/16⌉ dump lines (so there is no trailing line break), and
   * reading the hex columns of those lines gives back the bytes.
   */
  lemma HexDumpRoundTrip(bytes: seq<byte>)
    ensures bytes == [] <==> HexDump(bytes) == ""
    ensures bytes != [] ==> Split(HexDump(bytes), [LineBreak]) == Lines(bytes)
    ensures |Lines(bytes)| == (|bytes| + BytesPerLine - 1) / BytesPerLine
    ensures ParseDump(HexDump(bytes)) == bytes
  {
    LinesShape(bytes);
    ParseLinesOfLines(bytes);
    if bytes == [] {
      assert Split("", [LineBreak]) == [""];
      assert ParseLines([""]) == ParseLine("") + ParseLines([]);
    } else {
      SplitJoin(Lines(bytes), LineBreak);
      DumpLineLayout(bytes[..if BytesPerLine < |bytes| then BytesPerLine else |bytes|]);
      assert |HexDump(bytes)| > 0 by {
        JoinLength(Lines(bytes), [LineBreak]);
      }
    }
  }

  /** A join is at least as long as its first piece. */
  lemma JoinLength(xs: seq<string>, sep: string)
    requires |xs| >= 1
    ensures |Join(xs, sep)| >= |xs[0]|
  {
  }
}
