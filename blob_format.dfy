/** The compressed blob form of a blueprint location (`ToBlob` / `FromBlob`):
    the lines of `ToArray` framed by a `BinaryWriter` as a line count and the
    strings one after another, then compressed. */
module BlobFormat {
  import opened Common
  import Utf8
  import opened BinaryFormat
  import opened Documents
  import LineFormat
  import LineFormatProperties
  import LocationConfig

  /** The game's `Utils.Compress` and `Utils.Decompress`. `None` is the
      exception `Decompress` throws on bytes that are not a compressed stream. */
  datatype Compressor = Compressor(compress: seq<byte> -> seq<byte>, decompress: seq<byte> -> Option<seq<byte>>)

  /** Decompressing what was compressed gives it back. */
  ghost predicate Inverse(c: Compressor)
  {
    forall b :: c.decompress(c.compress(b)) == Some(b)
  }

  /** Every line's UTF-8 form has a length a `BinaryWriter` can write. */
  predicate StringsFit(lines: seq<string>)
  {
    forall k :: 0 <= k < |lines| ==> |Utf8.Encode(lines[k])| <= INT32_MAX
  }

  /** The line count fits an `int` and every line can be written. */
  predicate LinesFit(lines: seq<string>)
  {
    |lines| <= INT32_MAX && StringsFit(lines)
  }

  /** The strings `lines` written one after another. */
  function LinesBytes(lines: seq<string>): (r: seq<byte>)
    requires StringsFit(lines)
    ensures |r| >= |lines|
  {
    if lines == [] then []
    else LinesBytes(lines[..|lines| - 1]) + StringBytes(lines[|lines| - 1])
  }

  /** Writing one more line appends its bytes. */
  lemma LinesBytesSnoc(prefix: seq<byte>, ls: seq<string>, k: nat)
    requires StringsFit(ls) && k < |ls|
    ensures |Utf8.Encode(ls[k])| <= INT32_MAX
    ensures StringsFit(ls[..k]) && StringsFit(ls[..k + 1])
    ensures prefix + LinesBytes(ls[..k + 1]) == prefix + LinesBytes(ls[..k]) + StringBytes(ls[k])
  {
    assert ls[..k + 1][..k] == ls[..k];
    assert forall j :: 0 <= j < k + 1 ==> ls[..k + 1][j] == ls[j];
    assert LinesBytes(ls[..k + 1]) == LinesBytes(ls[..k]) + StringBytes(ls[k]);
  }

  /** The uncompressed blob: the line count, then the lines. */
  function Frame(lines: seq<string>): (r: seq<byte>)
    requires LinesFit(lines)
    ensures |r| >= 4 + |lines|
  {
    Int32Bytes(|lines|) + LinesBytes(lines)
  }

  /** `n` strings read by `read` from `pos` on, and the position after the last. */
  function ReadLines(read: StringReader, data: seq<byte>, pos: nat, n: nat): (r: Result<(seq<string>, nat)>)
    ensures r.Ok? ==> |r.value.0| == n
  {
    if n == 0 then Ok(([], pos))
    else
      match ReadLines(read, data, pos, n - 1)
      case Err(e) => Err(e)
      case Ok((ls, p)) =>
        match read(data, p)
        case Err(e) => Err(e)
        case Ok((s, q)) => Ok((ls + [s], q))
  }

  /** The reading loop of `FromBlob` on the decompressed bytes: a negative
      count reads no line, and bytes after the last line are not looked at. */
  function ReadFrame(data: seq<byte>): (r: Result<seq<string>>)
    ensures |data| < 4 ==> r == Err(EndOfStream)
    ensures r.Ok? ==> Int32At(data, 0).Ok? &&
                      |r.value| == if Int32At(data, 0).value.0 < 0 then 0 else Int32At(data, 0).value.0
  {
    match Int32At(data, 0)
    case Err(e) => Err(e)
    case Ok((n, p)) =>
      match ReadLines(StringAt, data, p, if n < 0 then 0 else n)
      case Err(e) => Err(e)
      case Ok((ls, _)) => Ok(ls)
  }

  /** Once a read fails, reading more strings fails the same way. */
  lemma {:induction false} ReadLinesFailureStops(read: StringReader, data: seq<byte>, pos: nat, m: nat, n: nat, e: Failure)
    requires m <= n && ReadLines(read, data, pos, m) == Err(e)
    ensures ReadLines(read, data, pos, n) == Err(e)
    decreases n
  {
    if m < n {
      ReadLinesFailureStops(read, data, pos, m, n - 1, e);
    }
  }

  /** The lines `FromBlob` hands to the parser. */
  function DecodeLines(payload: seq<byte>, c: Compressor): Result<seq<string>>
  {
    match c.decompress(payload)
    case None => Err(CorruptCompression)
    case Some(data) => ReadFrame(data)
  }

  /** `FromBlob(id, payload)`. */
  function DecodeBlob(id: string, payload: seq<byte>, c: Compressor, parsers: LocationConfig.ValueParsers): (r: Result<Document>)
    ensures c.decompress(payload).None? ==> r == Err(CorruptCompression)
    ensures r.Ok? ==> r.value.id == id && WellFormed(r.value) && r.value.pieceEntries.Some?
  {
    match DecodeLines(payload, c)
    case Err(e) => Err(e)
    case Ok(lines) => LineFormat.Parse(id, lines, parsers)
  }

  /** The document's lines can be written to a blob. */
  predicate Fits(d: Document)
    requires WellFormed(d)
  {
    LineFormat.Serialize(d).Some? ==> LinesFit(LineFormat.Serialize(d).value)
  }

  /** `ToBlob()`: null (`None`) when `ToArray` gives null or no line. */
  function EncodeBlob(d: Document, c: Compressor): (r: Option<seq<byte>>)
    requires WellFormed(d) && Fits(d)
    ensures r.None? <==> d.pieceEntries.None?
  {
    match LineFormat.Serialize(d)
    case None => None
    case Some(lines) => if |lines| == 0 then None else Some(c.compress(Frame(lines)))
  }

  /** `ReadsBack` at one string, ending at `end`. */
  lemma UseReadsBack(read: StringReader, data: seq<byte>, pos: nat, end: nat, s: string)
    requires ReadsBack(read) && |Utf8.Encode(s)| <= INT32_MAX
    requires end == pos + |StringBytes(s)| && end <= |data| && data[pos..end] == StringBytes(s)
    ensures read(data, pos) == Ok((s, end))
  {
  }

  /** One more string read after a run of them. */
  lemma ReadLinesSnoc(read: StringReader, data: seq<byte>, pos: nat, lines: seq<string>, mid: nat, end: nat)
    requires lines != []
    requires ReadLines(read, data, pos, |lines| - 1) == Ok((lines[..|lines| - 1], mid))
    requires read(data, mid) == Ok((lines[|lines| - 1], end))
    ensures ReadLines(read, data, pos, |lines|) == Ok((lines, end))
  {
    assert lines[..|lines| - 1] + [lines[|lines| - 1]] == lines;
  }

  /** The bytes of a run of strings at `pos`: those of all but the last up to
      `mid`, then those of the last up to `end`. */
  lemma LinesBytesSplit(data: seq<byte>, pos: nat, mid: nat, end: nat, lines: seq<string>)
    requires lines != [] && StringsFit(lines)
    requires mid == pos + |LinesBytes(lines[..|lines| - 1])|
    requires end == pos + |LinesBytes(lines)| && end <= |data| && data[pos..end] == LinesBytes(lines)
    ensures end == mid + |StringBytes(lines[|lines| - 1])|
    ensures data[pos..mid] == LinesBytes(lines[..|lines| - 1])
    ensures data[mid..end] == StringBytes(lines[|lines| - 1])
  {
    var h, e := LinesBytes(lines[..|lines| - 1]), StringBytes(lines[|lines| - 1]);
    assert LinesBytes(lines) == h + e;
    assert |LinesBytes(lines)| == |h| + |e|;
    SplitAt(data, pos, h, e);
  }

  /** A run of strings written at `pos` reads back as that run, whatever
      surrounds it. */
  lemma {:induction false} ReadLinesRoundTrip(read: StringReader, data: seq<byte>, pos: nat, end: nat, lines: seq<string>)
    requires ReadsBack(read) && StringsFit(lines)
    requires end == pos + |LinesBytes(lines)| && end <= |data| && data[pos..end] == LinesBytes(lines)
    ensures ReadLines(read, data, pos, |lines|) == Ok((lines, end))
    decreases |lines|
  {
    if lines != [] {
      var mid := pos + |LinesBytes(lines[..|lines| - 1])|;
      LinesBytesSplit(data, pos, mid, end, lines);
      ReadLinesRoundTrip(read, data, pos, mid, lines[..|lines| - 1]);
      UseReadsBack(read, data, mid, end, lines[|lines| - 1]);
      ReadLinesSnoc(read, data, pos, lines, mid, end);
    }
  }

  /** The framed lines read back, whatever bytes follow them. */
  lemma FrameRoundTrip(lines: seq<string>, extra: seq<byte>)
    requires LinesFit(lines)
    ensures ReadFrame(Frame(lines) + extra) == Ok(lines)
  {
    var data := Frame(lines) + extra;
    var h, e := Int32Bytes(|lines|), LinesBytes(lines);
    assert data[0..|h| + |e|] == h + e;
    SplitAt(data, 0, h, e);
    Int32RoundTrip(data, 0, |lines|);
    StringRoundTrip();
    ReadLinesRoundTrip(StringAt, data, 4, 4 + |e|, lines);
  }

  /** A stream too short for the line count fails with end of stream. */
  lemma ShortFrameFails(data: seq<byte>)
    requires |data| < 4
    ensures ReadFrame(data) == Err(EndOfStream)
  {
  }

  /** A negative line count reads as no line at all. */
  lemma NegativeCountReadsNothing(data: seq<byte>)
    requires Int32At(data, 0).Ok? && Int32At(data, 0).value.0 < 0
    ensures ReadFrame(data) == Ok([])
  {
  }

  /** A blob written by `ToBlob` is read back by `FromBlob` as the lines that
      `ToArray` wrote, so `FromBlob` parses it as `FromArray` would parse
      those lines: the id is the one given, and the name, creator,
      description and entry lists come back. */
  lemma BlobRoundTrip(id: string, d: Document, c: Compressor, parsers: LocationConfig.ValueParsers)
    requires Inverse(c)
    requires WellFormed(d) && Fits(d) && d.pieceEntries.Some? && LineFormatProperties.EntriesAreData(d)
    ensures EncodeBlob(d, c).Some?
    ensures DecodeLines(EncodeBlob(d, c).value, c) == Ok(LineFormat.Serialize(d).value)
    ensures DecodeBlob(id, EncodeBlob(d, c).value, c, parsers) ==
            Ok(Document(id, if OrEmpty(d.name) == "" then Some(id) else d.name, Some(OrEmpty(d.creator)),
                        d.description, d.pieceEntries, d.snapPoints, d.terrainMods, Some(map[])))
  {
    var lines := LineFormat.Serialize(d).value;
    assert c.decompress(c.compress(Frame(lines))) == Some(Frame(lines));
    FrameRoundTrip(lines, []);
    assert Frame(lines) + [] == Frame(lines);
    LineFormatProperties.ParseSerialize(id, d, parsers);
  }
}
