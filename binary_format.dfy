/** The byte layouts of .NET's `BinaryWriter` and `BinaryReader` that the blob
    uses: a little-endian `int`, and a string as its UTF-8 byte count in the
    7-bit variable-length encoding followed by those bytes. */
module BinaryFormat {
  import opened Common
  import Utf8

  /** `BinaryWriter.Write(int)`: two's complement, least significant byte first. */
  function Int32Bytes(n: int32): (r: seq<byte>)
    ensures |r| == 4
  {
    var u := if n < 0 then n + 0x1_0000_0000 else n;
    var q1 := u / 0x100;
    var q2 := q1 / 0x100;
    [u % 0x100, q1 % 0x100, q2 % 0x100, q2 / 0x100]
  }

  /** `BinaryReader.ReadInt32` at position `pos`: the value and the position after it. */
  function Int32At(data: seq<byte>, pos: nat): (r: Result<(int32, nat)>)
    ensures r.Ok? <==> pos + 4 <= |data|
    ensures r.Ok? ==> r.value.1 == pos + 4
  {
    if pos + 4 > |data| then Err(EndOfStream)
    else
      var u: int := data[pos] as int + 0x100 * data[pos + 1] as int
                    + 0x1_0000 * data[pos + 2] as int + 0x100_0000 * data[pos + 3] as int;
      Ok((if u >= 0x8000_0000 then u - 0x1_0000_0000 else u, pos + 4))
  }

  lemma Int32RoundTrip(data: seq<byte>, pos: nat, n: int32)
    requires pos + 4 <= |data| && data[pos..pos + 4] == Int32Bytes(n)
    ensures Int32At(data, pos) == Ok((n, pos + 4))
  {
    var u := if n < 0 then n + 0x1_0000_0000 else n;
    var q1 := u / 0x100;
    var q2 := q1 / 0x100;
    assert u == q1 * 0x100 + u % 0x100 && q1 == q2 * 0x100 + q1 % 0x100;
    assert data[pos] == u % 0x100 && data[pos + 1] == q1 % 0x100;
    assert data[pos + 2] == q2 % 0x100 && data[pos + 3] == q2 / 0x100;
  }

  /** The low 32 bits of `x`, read as a signed `int`. */
  function Wrap32(x: nat): (r: int32)
    ensures x <= INT32_MAX ==> r == x
  {
    var u := x % 0x1_0000_0000;
    if u >= 0x8000_0000 then u - 0x1_0000_0000 else u
  }

  /** `Write7BitEncodedInt` of a non-negative value: seven bits per byte, least
      significant group first, the high bit set on every byte but the last. */
  function SevenBit(n: nat): (r: seq<byte>)
    ensures |r| >= 1 && r[|r| - 1] < 0x80
  {
    if n < 0x80 then [n]
    else
      var tail := SevenBit(n / 0x80);
      var r := [n % 0x80 + 0x80] + tail;
      assert r[|r| - 1] == tail[|tail| - 1];
      r
  }

  /** The 7-bit groups from `pos` on, at most `budget` bytes of them: their
      value (least significant group first) and the position after them. */
  function GroupsFrom(data: seq<byte>, pos: nat, budget: nat): (r: Result<(nat, nat)>)
    ensures r.Ok? ==> pos < r.value.1 <= |data|
    decreases budget
  {
    if budget == 0 then Err(BadSevenBitInt)
    else if pos >= |data| then Err(EndOfStream)
    else if data[pos] < 0x80 then Ok((data[pos], pos + 1))
    else
      match GroupsFrom(data, pos + 1, budget - 1)
      case Err(e) => Err(e)
      case Ok((v, p)) => Ok((data[pos] - 0x80 + 0x80 * v, p))
  }

  /** `Read7BitEncodedInt`: at most five bytes; the reader ORs each group in at
      its shift within a 32-bit `int`, which keeps the sum of the groups
      modulo 2^32. */
  function SevenBitAt(data: seq<byte>, pos: nat): (r: Result<(int32, nat)>)
    ensures r.Ok? ==> pos < r.value.1 <= |data|
  {
    match GroupsFrom(data, pos, 5)
    case Err(e) => Err(e)
    case Ok((v, p)) => Ok((Wrap32(v), p))
  }

  function Pow128(k: nat): (r: nat)
    ensures r >= 1
  {
    if k == 0 then 1 else 0x80 * Pow128(k - 1)
  }

  lemma {:induction false} GroupsRoundTrip(data: seq<byte>, pos: nat, budget: nat, m: nat)
    requires 0 < budget && m < Pow128(budget)
    requires pos + |SevenBit(m)| <= |data| && data[pos..pos + |SevenBit(m)|] == SevenBit(m)
    ensures GroupsFrom(data, pos, budget) == Ok((m, pos + |SevenBit(m)|))
    decreases budget
  {
    if m >= 0x80 {
      var q := m / 0x80;
      var tail := SevenBit(q);
      assert SevenBit(m) == [m % 0x80 + 0x80] + tail;
      SliceCons(data, pos, m % 0x80 + 0x80, tail);
      assert q < Pow128(budget - 1);
      GroupsRoundTrip(data, pos + 1, budget - 1, q);
    } else {
      SliceCons(data, pos, m, []);
    }
  }

  /** `BinaryWriter.Write(string)`. */
  function StringBytes(s: string): (r: seq<byte>)
    requires |Utf8.Encode(s)| <= INT32_MAX
    ensures |r| > |Utf8.Encode(s)|
  {
    SevenBit(|Utf8.Encode(s)|) + Utf8.Encode(s)
  }

  /** Reads a length (`Read7BitEncodedInt`) at a position. */
  type LengthReader = (seq<byte>, nat) -> Result<(int32, nat)>

  /** Decodes the bytes of a string from a position up to another
      (`Encoding.UTF8.GetString`). */
  type Decoder = (seq<byte>, nat, nat) -> Option<string>

  /** Reads a string (`ReadString`) at a position. */
  type StringReader = (seq<byte>, nat) -> Result<(string, nat)>

  /** `ReadString` built from a length reader and a decoder: the length, then
      that many bytes decoded. A negative length, a length running past the
      end and bytes that do not decode are errors. */
  function StringWith(lenAt: LengthReader, dec: Decoder, data: seq<byte>, pos: nat): Result<(string, nat)>
  {
    match lenAt(data, pos)
    case Err(e) => Err(e)
    case Ok((len, p)) =>
      if len < 0 then Err(NegativeStringLength)
      else if len == 0 then Ok(("", p))
      else if p + len > |data| then Err(EndOfStream)
      else
        match dec(data, p, p + len)
        case None => Err(InvalidUtf8)
        case Some(s) => Ok((s, p + len))
  }

  /** `BinaryReader.ReadString`: a 7-bit length, then strict UTF-8. */
  function StringAt(data: seq<byte>, pos: nat): (r: Result<(string, nat)>)
    ensures r.Ok? ==> pos < r.value.1 <= |data|
  {
    StringWith(SevenBitAt, Utf8.DecodeRange, data, pos)
  }

  lemma Pow128Five()
    ensures Pow128(5) == 0x8_0000_0000
  {
    assert Pow128(1) == 0x80;
    assert Pow128(3) == 0x20_0000;
  }

  /** A length prefix at `pos` reads back as that length. */
  lemma SevenBitRoundTrip(data: seq<byte>, pos: nat, n: nat)
    requires n <= INT32_MAX
    requires pos + |SevenBit(n)| <= |data| && data[pos..pos + |SevenBit(n)|] == SevenBit(n)
    ensures SevenBitAt(data, pos) == Ok((n, pos + |SevenBit(n)|))
  {
    Pow128Five();
    GroupsRoundTrip(data, pos, 5, n);
  }

  /** `lenAt` reads back every length `Write7BitEncodedInt` writes, whatever
      surrounds it. */
  ghost predicate ReadsLengths(lenAt: LengthReader)
  {
    forall data: seq<byte>, pos: nat, n: nat ::
      n <= INT32_MAX && pos + |SevenBit(n)| <= |data| && data[pos..pos + |SevenBit(n)|] == SevenBit(n)
      ==> lenAt(data, pos) == Ok((n, pos + |SevenBit(n)|))
  }

  /** `dec` decodes the UTF-8 bytes of every string back to it, wherever
      they stand. */
  ghost predicate DecodesUtf8(dec: Decoder)
  {
    forall data: seq<byte>, p: nat, end: nat, s: string ::
      end == p + |Utf8.Encode(s)| && end <= |data| && data[p..end] == Utf8.Encode(s)
      ==> dec(data, p, end) == Some(s)
  }

  /** `read` reads back every string `BinaryWriter.Write(string)` writes,
      whatever surrounds it. */
  ghost predicate ReadsBack(read: StringReader)
  {
    forall data: seq<byte>, pos: nat, s: string ::
      |Utf8.Encode(s)| <= INT32_MAX && pos + |StringBytes(s)| <= |data|
      && data[pos..pos + |StringBytes(s)|] == StringBytes(s)
      ==> read(data, pos) == Ok((s, pos + |StringBytes(s)|))
  }

  lemma SevenBitAtReadsLengths()
    ensures ReadsLengths(SevenBitAt)
  {
    forall data: seq<byte>, pos: nat, n: nat |
      n <= INT32_MAX && pos + |SevenBit(n)| <= |data| && data[pos..pos + |SevenBit(n)|] == SevenBit(n)
      ensures SevenBitAt(data, pos) == Ok((n, pos + |SevenBit(n)|))
    {
      SevenBitRoundTrip(data, pos, n);
    }
  }

  lemma DecodeDecodesUtf8()
    ensures DecodesUtf8(Utf8.DecodeRange)
  {
    forall data: seq<byte>, p: nat, end: nat, s: string |
      end == p + |Utf8.Encode(s)| && end <= |data| && data[p..end] == Utf8.Encode(s)
      ensures Utf8.DecodeRange(data, p, end) == Some(s)
    {
      Utf8.DecodeEncode(data, p, end, s);
    }
  }

  lemma UseLengths(lenAt: LengthReader, data: seq<byte>, pos: nat, p: nat, n: nat)
    requires ReadsLengths(lenAt)
    requires n <= INT32_MAX && p == pos + |SevenBit(n)| && p <= |data| && data[pos..p] == SevenBit(n)
    ensures lenAt(data, pos) == Ok((n, p))
  {
  }

  lemma UseDecoder(dec: Decoder, data: seq<byte>, p: nat, end: nat, s: string)
    requires DecodesUtf8(dec)
    requires end == p + |Utf8.Encode(s)| && end <= |data| && data[p..end] == Utf8.Encode(s)
    ensures dec(data, p, end) == Some(s)
  {
  }

  /** The bytes `Write(string)` wrote at `pos`: the length prefix up to `p`,
      then the UTF-8 bytes up to `end`. */
  lemma StringBytesSplit(data: seq<byte>, pos: nat, p: nat, end: nat, s: string)
    requires |Utf8.Encode(s)| <= INT32_MAX && pos + |StringBytes(s)| <= |data|
    requires data[pos..pos + |StringBytes(s)|] == StringBytes(s)
    requires p == pos + |SevenBit(|Utf8.Encode(s)|)| && end == p + |Utf8.Encode(s)|
    ensures end == pos + |StringBytes(s)| && end <= |data|
    ensures data[pos..p] == SevenBit(|Utf8.Encode(s)|) && data[p..end] == Utf8.Encode(s)
  {
    var e := Utf8.Encode(s);
    var h := SevenBit(|e|);
    assert StringBytes(s) == h + e;
    assert |StringBytes(s)| == |h| + |e|;
    SplitAt(data, pos, h, e);
  }

  /** One string read back by a reader built from a length reader and a
      decoder that undo the writer: the length prefix is read up to `p`, and
      the bytes from there to `end` decode. */
  lemma ReadsBackOne(lenAt: LengthReader, dec: Decoder, data: seq<byte>, pos: nat, p: nat, end: nat, s: string)
    requires ReadsLengths(lenAt) && DecodesUtf8(dec)
    requires |Utf8.Encode(s)| <= INT32_MAX
    requires p == pos + |SevenBit(|Utf8.Encode(s)|)| && end == p + |Utf8.Encode(s)| && end <= |data|
    requires data[pos..p] == SevenBit(|Utf8.Encode(s)|) && data[p..end] == Utf8.Encode(s)
    ensures StringWith(lenAt, dec, data, pos) == Ok((s, end))
  {
    UseLengths(lenAt, data, pos, p, |Utf8.Encode(s)|);
    UseDecoder(dec, data, p, end, s);
  }

  /** The bytes `Write(string)` wrote at `pos` read back by such a reader. */
  lemma ReadsBackWritten(lenAt: LengthReader, dec: Decoder, data: seq<byte>, pos: nat, s: string)
    requires ReadsLengths(lenAt) && DecodesUtf8(dec)
    requires |Utf8.Encode(s)| <= INT32_MAX && pos + |StringBytes(s)| <= |data|
    requires data[pos..pos + |StringBytes(s)|] == StringBytes(s)
    ensures StringWith(lenAt, dec, data, pos) == Ok((s, pos + |StringBytes(s)|))
  {
    var p := pos + |SevenBit(|Utf8.Encode(s)|)|;
    var end := p + |Utf8.Encode(s)|;
    StringBytesSplit(data, pos, p, end, s);
    ReadsBackOne(lenAt, dec, data, pos, p, end, s);
  }

  /** `ReadString` reads back what `Write(string)` wrote. */
  lemma StringRoundTrip()
    ensures ReadsBack(StringAt)
  {
    SevenBitAtReadsLengths();
    DecodeDecodesUtf8();
    forall data: seq<byte>, pos: nat, s: string |
      |Utf8.Encode(s)| <= INT32_MAX && pos + |StringBytes(s)| <= |data|
      && data[pos..pos + |StringBytes(s)|] == StringBytes(s)
      ensures StringAt(data, pos) == Ok((s, pos + |StringBytes(s)|))
    {
      ReadsBackWritten(SevenBitAt, Utf8.DecodeRange, data, pos, s);
    }
  }

  /** The stream a `BinaryWriter` writes to. */
  class Writer {
    var bytes: seq<byte>

    constructor ()
      ensures bytes == []
    {
      bytes := [];
    }

    method WriteInt32(n: int32)
      modifies this
      ensures bytes == old(bytes) + Int32Bytes(n)
    {
      bytes := bytes + Int32Bytes(n);
    }

    method WriteString(s: string)
      requires |Utf8.Encode(s)| <= INT32_MAX
      modifies this
      ensures bytes == old(bytes) + StringBytes(s)
    {
      bytes := bytes + StringBytes(s);
    }
  }

  /** A `BinaryReader` over a byte array, with its read position. */
  class Reader {
    const data: seq<byte>
    var pos: nat

    constructor (data: seq<byte>)
      ensures this.data == data && pos == 0
    {
      this.data := data;
      pos := 0;
    }

    method ReadInt32() returns (r: Result<int32>)
      modifies this
      ensures Int32At(data, old(pos)).Ok? ==>
                r == Ok(Int32At(data, old(pos)).value.0) && pos == Int32At(data, old(pos)).value.1
      ensures Int32At(data, old(pos)).Err? ==> r == Err(Int32At(data, old(pos)).error)
    {
      match Int32At(data, pos)
      case Ok((v, p)) => r := Ok(v); pos := p;
      case Err(e) => r := Err(e);
    }

    method ReadString() returns (r: Result<string>)
      modifies this
      ensures StringAt(data, old(pos)).Ok? ==>
                r == Ok(StringAt(data, old(pos)).value.0) && pos == StringAt(data, old(pos)).value.1
      ensures StringAt(data, old(pos)).Err? ==> r == Err(StringAt(data, old(pos)).error)
    {
      match StringAt(data, pos)
      case Ok((s, p)) => r := Ok(s); pos := p;
      case Err(e) => r := Err(e);
    }
  }
}
