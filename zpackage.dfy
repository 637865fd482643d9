/** Valheim's `ZPackage`, the message body the game sends between peers,
    seen as the typed values written to it one after another and a read
    position. */
module ZPackages {
  import opened Common

  /** One value written to a package. */
  datatype Field = StringField(text: string) | BytesField(bytes: seq<byte>)

  /** The string at position `i` of `fields`: a read past the last value
      fails, and so does a read of a value written as bytes. */
  function StringFieldAt(fields: seq<Field>, i: nat): (r: Result<string>)
    ensures r.Ok? <==> i < |fields| && fields[i].StringField?
    ensures r.Ok? ==> fields[i] == StringField(r.value)
    ensures i >= |fields| ==> r == Err(PackageExhausted)
  {
    if i >= |fields| then Err(PackageExhausted)
    else match fields[i]
      case StringField(t) => Ok(t)
      case BytesField(_) => Err(FieldTypeMismatch)
  }

  /** The byte array at position `i` of `fields`. */
  function BytesFieldAt(fields: seq<Field>, i: nat): (r: Result<seq<byte>>)
    ensures r.Ok? <==> i < |fields| && fields[i].BytesField?
    ensures r.Ok? ==> fields[i] == BytesField(r.value)
    ensures i >= |fields| ==> r == Err(PackageExhausted)
  {
    if i >= |fields| then Err(PackageExhausted)
    else match fields[i]
      case BytesField(b) => Ok(b)
      case StringField(_) => Err(FieldTypeMismatch)
  }

  /** A package: what was written, and how far it has been read. */
  class ZPackage {
    var fields: seq<Field>
    var pos: nat

    constructor ()
      ensures fields == [] && pos == 0
    {
      fields := [];
      pos := 0;
    }

    /** A package holding `fields`, to be read from the start (a package
        received from a peer). */
    constructor FromFields(fields: seq<Field>)
      ensures this.fields == fields && pos == 0
    {
      this.fields := fields;
      pos := 0;
    }

    /** `Write(string)`. */
    method Write(s: string)
      modifies this
      ensures fields == old(fields) + [StringField(s)] && pos == old(pos)
    {
      fields := fields + [StringField(s)];
    }

    /** `Write(byte[])`: a null array (`None`) fails with a null reference
        and writes nothing. */
    method WriteBytes(b: Option<seq<byte>>) returns (r: Result<()>)
      modifies this
      ensures b.None? ==> r == Err(NullBlob) && fields == old(fields)
      ensures b.Some? ==> r == Ok(()) && fields == old(fields) + [BytesField(b.value)]
      ensures pos == old(pos)
    {
      if b.None? {
        r := Err(NullBlob);
      } else {
        fields := fields + [BytesField(b.value)];
        r := Ok(());
      }
    }

    /** `ReadString()`: the read position moves on only when it succeeds. */
    method ReadString() returns (r: Result<string>)
      modifies this
      ensures r == StringFieldAt(fields, old(pos))
      ensures fields == old(fields) && pos == if r.Ok? then old(pos) + 1 else old(pos)
    {
      r := StringFieldAt(fields, pos);
      if r.Ok? {
        pos := pos + 1;
      }
    }

    /** `ReadByteArray()`. */
    method ReadByteArray() returns (r: Result<seq<byte>>)
      modifies this
      ensures r == BytesFieldAt(fields, old(pos))
      ensures fields == old(fields) && pos == if r.Ok? then old(pos) + 1 else old(pos)
    {
      r := BytesFieldAt(fields, pos);
      if r.Ok? {
        pos := pos + 1;
      }
    }
  }

  /** What is written is read back in the order it was written, whatever
      came before it and whatever comes after it. */
  lemma FieldsRoundTrip(before: seq<Field>, id: string, blob: seq<byte>, after: seq<Field>)
    ensures StringFieldAt(before + [StringField(id), BytesField(blob)] + after, |before|) == Ok(id)
    ensures BytesFieldAt(before + [StringField(id), BytesField(blob)] + after, |before| + 1) == Ok(blob)
  {
    var fs := before + [StringField(id), BytesField(blob)] + after;
    assert fs[|before|] == StringField(id);
    assert fs[|before| + 1] == BytesField(blob);
  }
}
