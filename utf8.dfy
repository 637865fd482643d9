/** UTF-8, the encoding `BinaryWriter` and `BinaryReader` use for strings. */
module Utf8 {
  import opened Common

  predicate IsContinuation(b: byte)
  {
    0x80 <= b < 0xC0
  }

  /** The one to four bytes of a scalar value: six bits per continuation
      byte, the lowest bits last. */
  function EncodeChar(c: char): (r: seq<byte>)
    ensures 1 <= |r| <= 4
    ensures (c as int < 0x80) <==> |r| == 1
  {
    var n := c as int;
    var q1 := n / 0x40;
    var q2 := q1 / 0x40;
    if n < 0x80 then [n]
    else if n < 0x800 then [0xC0 + q1, 0x80 + n % 0x40]
    else if n < 0x1_0000 then [0xE0 + q2, 0x80 + q1 % 0x40, 0x80 + n % 0x40]
    else [0xF0 + q2 / 0x40, 0x80 + q2 % 0x40, 0x80 + q1 % 0x40, 0x80 + n % 0x40]
  }

  /** `Encoding.UTF8.GetBytes`: the encodings of the characters one after
      another. */
  function Encode(s: string): (r: seq<byte>)
    ensures |s| <= |r| <= 4 * |s|
  {
    if s == [] then [] else EncodeChar(s[0]) + Encode(s[1..])
  }

  /** Decodes the scalar value whose bytes start at `i` and end by `end`, and
      returns it with the position after it; rejects overlong forms,
      surrogates and values above U+10FFFF. */
  function DecodeCharAt(bs: seq<byte>, i: nat, end: nat): (r: Option<(char, nat)>)
    requires i < end <= |bs|
    ensures r.Some? ==> i < r.value.1 <= end
  {
    var b0: int := bs[i];
    if b0 < 0x80 then Some((b0 as char, i + 1))
    else if 0xC2 <= b0 < 0xE0 then
      if i + 2 <= end && IsContinuation(bs[i + 1]) then
        Some((((b0 - 0xC0) * 0x40 + (bs[i + 1] as int - 0x80)) as char, i + 2))
      else None
    else if 0xE0 <= b0 < 0xF0 then
      if i + 3 <= end && IsContinuation(bs[i + 1]) && IsContinuation(bs[i + 2]) then
        var n := (b0 - 0xE0) * 0x1000 + (bs[i + 1] as int - 0x80) * 0x40 + (bs[i + 2] as int - 0x80);
        if n < 0x800 || (0xD800 <= n < 0xE000) then None else Some((n as char, i + 3))
      else None
    else if 0xF0 <= b0 < 0xF5 then
      if i + 4 <= end && IsContinuation(bs[i + 1]) && IsContinuation(bs[i + 2]) && IsContinuation(bs[i + 3]) then
        var n := (b0 - 0xF0) * 0x4_0000 + (bs[i + 1] as int - 0x80) * 0x1000
                 + (bs[i + 2] as int - 0x80) * 0x40 + (bs[i + 3] as int - 0x80);
        if n < 0x1_0000 || n >= 0x11_0000 then None else Some((n as char, i + 4))
      else None
    else None
  }

  /** `Encoding.UTF8.GetString` of the bytes of `bs` from `i` up to `end`:
      strict decoding, `None` on bytes that are not well-formed UTF-8 or
      that run past the end of `bs`. */
  function DecodeRange(bs: seq<byte>, i: nat, end: nat): (r: Option<string>)
    ensures r.Some? && i < end ==> end <= |bs| && |r.value| <= end - i
    ensures i >= end ==> r == Some([])
    decreases end - i
  {
    if i >= end then Some([])
    else if end > |bs| then None
    else
      match DecodeCharAt(bs, i, end)
      case None => None
      case Some((c, j)) =>
        match DecodeRange(bs, j, end)
        case None => None
        case Some(s) => Some([c] + s)
  }

  /** The encoding of `c` at `i`, ending at `j`, decodes back to `c`,
      whatever follows it. */
  lemma DecodeEncodeChar(bs: seq<byte>, i: nat, j: nat, end: nat, c: char)
    requires j == i + |EncodeChar(c)| && j <= end <= |bs| && bs[i..j] == EncodeChar(c)
    ensures DecodeCharAt(bs, i, end) == Some((c, j))
  {
    var n := c as int;
    var q1 := n / 0x40;
    var q2 := q1 / 0x40;
    assert n == q1 * 0x40 + n % 0x40 && q1 == q2 * 0x40 + q1 % 0x40;
    var e := EncodeChar(c);
    assert bs[i] == e[0];
    if n < 0x80 {
    } else if n < 0x800 {
      assert bs[i + 1] == e[1];
    } else if n < 0x1_0000 {
      assert bs[i + 1] == e[1] && bs[i + 2] == e[2];
    } else {
      assert q2 == (q2 / 0x40) * 0x40 + q2 % 0x40;
      assert bs[i + 1] == e[1] && bs[i + 2] == e[2] && bs[i + 3] == e[3];
    }
  }

  /** A decoded first scalar value followed by the decoded rest. */
  lemma DecodeRangeCons(bs: seq<byte>, i: nat, j: nat, end: nat, s: string)
    requires s != [] && i < j <= end <= |bs| && DecodeCharAt(bs, i, end) == Some((s[0], j))
    requires DecodeRange(bs, j, end) == Some(s[1..])
    ensures DecodeRange(bs, i, end) == Some(s)
  {
    assert [s[0]] + s[1..] == s;
  }

  /** The encoding of a non-empty string from `i` to `end`: its first scalar
      value's bytes up to `j`, then the encoding of the rest. */
  lemma EncodeTail(bs: seq<byte>, i: nat, j: nat, end: nat, s: string)
    requires s != [] && j == i + |EncodeChar(s[0])|
    requires end == i + |Encode(s)| && end <= |bs| && bs[i..end] == Encode(s)
    ensures end == j + |Encode(s[1..])|
    ensures bs[i..j] == EncodeChar(s[0]) && bs[j..end] == Encode(s[1..])
  {
    var h, t := EncodeChar(s[0]), Encode(s[1..]);
    assert Encode(s) == h + t;
    assert |Encode(s)| == |h| + |t|;
    SplitAt(bs, i, h, t);
  }

  /** The inductive step of `DecodeEncode`. */
  lemma DecodeStep(bs: seq<byte>, i: nat, j: nat, end: nat, s: string)
    requires s != [] && j == i + |EncodeChar(s[0])| && j <= end <= |bs| && bs[i..j] == EncodeChar(s[0])
    requires DecodeRange(bs, j, end) == Some(s[1..])
    ensures DecodeRange(bs, i, end) == Some(s)
  {
    DecodeEncodeChar(bs, i, j, end, s[0]);
    DecodeRangeCons(bs, i, j, end, s);
  }

  /** Decoding inverts encoding: the bytes `GetBytes` gives for any string,
      wherever they stand in `bs`, decode back to that string. */
  lemma {:induction false} DecodeEncode(bs: seq<byte>, i: nat, end: nat, s: string)
    requires end == i + |Encode(s)| && end <= |bs| && bs[i..end] == Encode(s)
    ensures DecodeRange(bs, i, end) == Some(s)
    decreases |s|
  {
    if s != [] {
      var j := i + |EncodeChar(s[0])|;
      EncodeTail(bs, i, j, end, s);
      DecodeEncode(bs, j, end, s[1..]);
      DecodeStep(bs, i, j, end, s);
    }
  }
}
