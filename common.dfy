/** Shared value types: optional values, results that carry the failure the
    .NET code would raise as an exception, and the machine integer types of
    the binary formats. */
module Common {

  datatype Option<+T> = None | Some(value: T)

  /** The exceptions the codec can raise, one constructor per cause. */
  datatype Failure =
    | MissingOptionValue(line: string)          // `split[1]` of a Location line without ':'
    | BadOptionValue(key: string, text: string) // a typed parse of a Location value rejects it
    | BadDescription(text: string)              // the JSON string of `#Description:` does not decode
    | EndOfStream                               // the binary reader runs past the end of its data
    | BadSevenBitInt                            // a 7-bit encoded length longer than five bytes
    | NegativeStringLength                      // a 7-bit encoded length that reads as a negative int
    | InvalidUtf8                               // string bytes that are not well-formed UTF-8
    | CorruptCompression                        // the payload does not decompress
    | NullBlob                                  // writing the null blob of an empty document into a package
    | PackageExhausted                          // reading past the last field of a package
    | FieldTypeMismatch                         // reading a package field as the wrong type

  datatype Result<+T> = Ok(value: T) | Err(error: Failure)

  /** An unsigned byte. */
  type byte = x: int | 0 <= x < 0x100

  /** A .NET `int`: 32-bit two's complement. */
  type int32 = x: int | -0x8000_0000 <= x < 0x8000_0000

  const INT32_MAX: int := 0x7FFF_FFFF

  /** The elements of `h + e` at `pos` are those of `h` at `pos`, then those of `e`. */
  lemma SplitAt<T>(data: seq<T>, pos: nat, h: seq<T>, e: seq<T>)
    requires pos + |h| + |e| <= |data| && data[pos..pos + |h| + |e|] == h + e
    ensures data[pos..pos + |h|] == h
    ensures data[pos + |h|..pos + |h| + |e|] == e
  {
    assert data[pos..pos + |h|] == data[pos..pos + |h| + |e|][..|h|];
    assert data[pos + |h|..pos + |h| + |e|] == data[pos..pos + |h| + |e|][|h|..];
  }

  /** The elements of `[x] + t` at `pos`: `x`, then those of `t`. */
  lemma SliceCons<T>(data: seq<T>, pos: nat, x: T, t: seq<T>)
    requires pos + 1 + |t| <= |data| && data[pos..pos + 1 + |t|] == [x] + t
    ensures data[pos] == x && data[pos + 1..pos + 1 + |t|] == t
  {
    assert data[pos] == data[pos..pos + 1 + |t|][0];
    assert data[pos + 1..pos + 1 + |t|] == data[pos..pos + 1 + |t|][1..];
  }

  /** The middle part of a concatenation stands at the end of the first. */
  lemma SliceMiddle<T>(x: seq<T>, y: seq<T>, z: seq<T>)
    ensures (x + y + z)[|x|..|x| + |y|] == y
  {
    assert (x + y + z)[|x|..|x| + |y|] == (x + y)[|x|..];
  }

  /** Taking one more element of `xs` after `prefix` appends that element. */
  lemma PrefixSnoc<T>(prefix: seq<T>, xs: seq<T>, k: nat)
    requires k < |xs|
    ensures prefix + xs[..k + 1] == prefix + xs[..k] + [xs[k]]
  {
    assert xs[..k + 1] == xs[..k] + [xs[k]];
  }
}
