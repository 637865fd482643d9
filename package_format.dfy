/** The package form of a blueprint location (`ToZPackage` /
    `FromZPackage`): the id as a string, then the blob as a byte array. */
module PackageFormat {
  import opened Common
  import opened Documents
  import opened ZPackages
  import BlobFormat
  import LocationConfig
  import LineFormatProperties

  /** The values `ToZPackage()` writes. There is no blob when the document
      has no piece entries, and writing that null array fails. */
  function Pack(d: Document, c: BlobFormat.Compressor): (r: Result<seq<Field>>)
    requires WellFormed(d) && BlobFormat.Fits(d)
    ensures r.Err? <==> d.pieceEntries.None?
    ensures r.Err? ==> r.error == NullBlob
    ensures r.Ok? ==> |r.value| == 2 && r.value[0] == StringField(d.id) && r.value[1].BytesField?
  {
    match BlobFormat.EncodeBlob(d, c)
    case None => Err(NullBlob)
    case Some(b) => Ok([StringField(d.id), BytesField(b)])
  }

  /** `FromZPackage(pkg)` with the package read from `pos`: the id, then the
      blob it hands to `FromBlob`. */
  function Unpack(fields: seq<Field>, pos: nat, c: BlobFormat.Compressor,
                  parsers: LocationConfig.ValueParsers): (r: Result<Document>)
    ensures pos >= |fields| ==> r == Err(PackageExhausted)
    ensures r.Ok? ==> pos + 1 < |fields| && fields[pos] == StringField(r.value.id) && fields[pos + 1].BytesField?
  {
    match StringFieldAt(fields, pos)
    case Err(e) => Err(e)
    case Ok(id) =>
      match BytesFieldAt(fields, pos + 1)
      case Err(e) => Err(e)
      case Ok(blob) => BlobFormat.DecodeBlob(id, blob, c, parsers)
  }

  /** A package that holds less than an id and a blob fails to read. */
  lemma ShortPackageFails(fields: seq<Field>, pos: nat, c: BlobFormat.Compressor,
                          parsers: LocationConfig.ValueParsers)
    requires |fields| <= pos + 1
    ensures Unpack(fields, pos, c, parsers).Err?
  {
  }

  /** What `ToZPackage` writes, read by `FromZPackage` wherever it stands in
      a package, gives back the id it was written with and whatever `FromBlob`
      makes of the blob: the document as `FromArray` parses the lines
      `ToArray` wrote. */
  lemma PackageRoundTrip(d: Document, c: BlobFormat.Compressor, parsers: LocationConfig.ValueParsers,
                         before: seq<Field>, after: seq<Field>)
    requires BlobFormat.Inverse(c)
    requires WellFormed(d) && BlobFormat.Fits(d) && d.pieceEntries.Some? && LineFormatProperties.EntriesAreData(d)
    ensures Pack(d, c).Ok?
    ensures StringFieldAt(before + Pack(d, c).value + after, |before|) == Ok(d.id)
    ensures Unpack(before + Pack(d, c).value + after, |before|, c, parsers) ==
            Ok(Document(d.id, if OrEmpty(d.name) == "" then Some(d.id) else d.name, Some(OrEmpty(d.creator)),
                        d.description, d.pieceEntries, d.snapPoints, d.terrainMods, Some(map[])))
  {
    BlobFormat.BlobRoundTrip(d.id, d, c, parsers);
    var blob := BlobFormat.EncodeBlob(d, c).value;
    FieldsRoundTrip(before, d.id, blob, after);
  }
}
