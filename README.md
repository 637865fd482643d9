# BlueprintLocation codec, modelled in Dafny

PlanBuildLocations is a Valheim mod. It stores the design of a placeable
location as a *blueprint location*: a name, a creator, a description, some
Location options, and three lists of entry lines. The lists hold building
pieces, snap points and terrain modifiers. This project models the class
`BlueprintLocation` that reads and writes that document in three forms:

- **Text lines.** `FromArray` parses them and `ToArray` writes them.
  - The parser is a state machine over the sections `SnapPoints`,
    `Terrain`, `Location` and `Pieces`. It starts in `Pieces`.
  - The `#Name:`, `#Creator:` and `#Description:` lines set fields in any
    section. The four exact section headers switch the section.
  - Blank lines and other `#` lines are skipped. Every other line goes to
    the list of the current section.
  - In the Location section, a line is instead a `key:value` assignment of
    one of the Location options.
- **A compressed blob.** `ToBlob` and `FromBlob` use a .NET
  `BinaryWriter`/`BinaryReader` framing: an `int` line count, then each
  line as a 7-bit length-prefixed UTF-8 string. The whole frame is then
  compressed.
- **A game package (`ZPackage`).** `ToZPackage` and `FromZPackage` hold the
  id, then the blob.

The model has two layers:

1. **Value-level functions** that say what each operation computes:
   - `LineFormat.Parse`, a fold (`Feed`) of one parser turn (`Step`) over
     the lines, and `LineFormat.Serialize`;
   - `BlobFormat.EncodeBlob` and `BlobFormat.DecodeBlob`;
   - `PackageFormat.Pack` and `PackageFormat.Unpack`.

   Lemmas about these state what the parser and the serialiser promise.
2. **An imperative class** `PlanBuildLocations.BlueprintLocation`:
   - It has the fields of the C# class, except `LocationPrefab`.
   - Its methods follow the source's loops: the parser loop over the
     lines, the `List.Add` runs of `ToArray`, and the writer and reader
     loops of `ToBlob` and `FromBlob`.
   - Each method is proved to produce exactly what the matching function
     describes, and to fail exactly where it fails.

A thrown .NET exception is modelled as an `Err` result that names its cause.

Foreign code is handled as follows:

- **Passed in as parameters, not implemented:**
  - the compressor pair `Utils.Compress`/`Utils.Decompress`, as
    `BlobFormat.Compressor`. The round-trip lemmas assume
    `BlobFormat.Inverse`.
  - the platform value parsers for Location options (`Enum.Parse`,
    `bool.Parse`, `int.Parse`, `float.Parse`), as
    `LocationConfig.ValueParsers`.
- **Modelled concretely:**
  - SimpleJson's string quoting and unquoting, following section 7 of
    RFC 8259;
  - `BinaryWriter`/`BinaryReader`: little-endian `int`, the 7-bit encoded
    length, strict UTF-8;
  - the .NET string operations used: `StartsWith`, `Trim`,
    `ToLowerInvariant`, `Split`.

## Model

| member | source | states |
|---|---|---|
| LineFormat.Parse | PlanBuildLocations/BlueprintLocation.cs:156-320 | A successful parse returns the given id. The piece, snap point, terrain and Location fields are set. The name is set, and it is non-empty when the id is |
| LineFormat.Serialize | PlanBuildLocations/BlueprintLocation.cs:326-361 | `ToArray` is null exactly when the piece entries are null. Otherwise it has 4 + pieces lines, plus 1 + n for each non-empty optional section |
| LocationConfig.Assign | PlanBuildLocations/BlueprintLocation.cs:225-298 | A line without ':' fails. An unknown key leaves the options as they were. A known key whose value its parser rejects fails. Otherwise exactly that key is set to the parsed value |
| LocationConfig.ParseValue | PlanBuildLocations/BlueprintLocation.cs:229-293 | A parsed value always has the kind the option declares. A biome, bool, int or float option fails exactly when its platform parser rejects the text. The `group` option takes its text as it is |
| LocationConfig.OptionKey | PlanBuildLocations/BlueprintLocation.cs:226-227 | The key holds no ':' and no upper-case letter, and has no white space at either end |
| LocationConfig.OptionText | PlanBuildLocations/BlueprintLocation.cs:226-228 | The value holds no ':' and has no white space at either end |
| LocationConfig.AssignTyped | PlanBuildLocations/BlueprintLocation.cs:229-293 | Assigning a line keeps every option a recognised key holding a value of its kind |
| LocationConfig.ApplyAllTyped | PlanBuildLocations/BlueprintLocation.cs:225-298 | Assigning a run of Location lines in order keeps the options typed |
| LocationConfig.ApplyAllSnoc | PlanBuildLocations/BlueprintLocation.cs:225-298 | Assigning one more line is assigning it to the options the run before it gave, unless that run failed |
| Text.Trim | PlanBuildLocations/BlueprintLocation.cs:227-228 | The result is a slice of the input with only white space outside it, and none at either of its ends |
| Text.TrimStart | PlanBuildLocations/BlueprintLocation.cs:227-228 | What is dropped is a white-space prefix, and the rest does not start with white space |
| Text.TrimEnd | PlanBuildLocations/BlueprintLocation.cs:227-228 | What is dropped is a white-space suffix, and the rest does not end with white space |
| Text.Split | PlanBuildLocations/BlueprintLocation.cs:226 | The fields contain no separator and join back to the input. There is one field exactly when there is no separator |
| Text.SplitFields | PlanBuildLocations/BlueprintLocation.cs:226-228 | Field 0 is the text before the first ':'. Field 1 is the text between the first ':' and the next one, or the end |
| Text.Lower | PlanBuildLocations/BlueprintLocation.cs:227 | Same length, no upper-case letter left. Each upper-case ASCII letter becomes its lower-case form, and every other character is kept |
| Text.StartsWithAppend | PlanBuildLocations/BlueprintLocation.cs:174-213 | A line starts with a header exactly when it is the header followed by some rest |
| Text.IndexOf | PlanBuildLocations/BlueprintLocation.cs:226 | The index of the first occurrence |
| Json.Quote | PlanBuildLocations/BlueprintLocation.cs:337 | The quoted form starts and ends with '"' and contains no control character |
| Json.EscapePlain | PlanBuildLocations/BlueprintLocation.cs:337 | Text without quotes, backslashes or control characters is written unchanged inside the quotes |
| Json.Unquote | PlanBuildLocations/BlueprintLocation.cs:189 | Only a text that starts with '"' and holds at least the two quotes decodes |
| Json.UnquoteQuote | PlanBuildLocations/BlueprintLocation.cs:187-189 | Unquoting what was quoted gives the string back; see also line 337 |
| Json.BodyEscape | PlanBuildLocations/BlueprintLocation.cs:189 | An escaped body followed by the closing quote decodes to the string and leaves the rest; see also line 337 |
| Json.UnescapeEscapeChar | PlanBuildLocations/BlueprintLocation.cs:189 | Each escape sequence decodes to its character; see also line 337 |
| Json.HexRoundTrip | PlanBuildLocations/BlueprintLocation.cs:189 | A hex digit reads back as its value; see also line 337 |
| LineFormat.Step | PlanBuildLocations/BlueprintLocation.cs:170-307 | One turn of the parser loop can fail only on a `#Description:` line or on a data line of the Location section |
| LineFormatProperties.FeedAppend | PlanBuildLocations/BlueprintLocation.cs:168-308 | Parsing `a + b` is parsing `a`, then `b` from where `a` left off |
| LineFormatProperties.FeedFailureStops | PlanBuildLocations/BlueprintLocation.cs:168-308 | A line that fails fails the whole parse, whatever follows it |
| LineFormatProperties.HeadersDisjoint | PlanBuildLocations/BlueprintLocation.cs:17-23 | No line starts with two different metadata headers. No section header starts with a metadata header. Every header starts with '#' |
| LineFormatProperties.DataStep | PlanBuildLocations/BlueprintLocation.cs:217-307 | A data line is appended to the list of the current section, or assigned as an option in the Location section |
| LineFormatProperties.DataPartition | PlanBuildLocations/BlueprintLocation.cs:217-307 | Every data line falls under exactly one of the four sections |
| LineFormatProperties.FeedSorts | PlanBuildLocations/BlueprintLocation.cs:166-224 | After a successful parse, each list is exactly the data lines of its section, in input order. The final section is the one named by the last section header, or Pieces if there is none; see also lines 299-317 |
| LineFormatProperties.DataInIsData | PlanBuildLocations/BlueprintLocation.cs:170-216 | The lines a section collects are data lines |
| LineFormatProperties.StoredLinesAreData | PlanBuildLocations/BlueprintLocation.cs:166-216 | No blank line, header or comment is ever stored as an entry |
| LineFormatProperties.FeedMetadata | PlanBuildLocations/BlueprintLocation.cs:174-192 | The name and creator are the rest of the last `#Name:`/`#Creator:` line, in any section. The description is the decoded rest of the last `#Description:` line, or empty |
| LineFormatProperties.NameDefaultsToId | PlanBuildLocations/BlueprintLocation.cs:310-313 | The parsed name is the last `#Name:` value, or the id when that is missing or empty |
| LineFormatProperties.ColonlessOptionLineFails | PlanBuildLocations/BlueprintLocation.cs:225-228 | In the Location section, a data line without ':' fails the whole parse, whatever follows |
| LineFormatProperties.UnknownOptionIgnored | PlanBuildLocations/BlueprintLocation.cs:294-297 | In the Location section, a line with an unknown key is skipped, as if it were absent |
| LineFormatProperties.BadOptionValueFails | PlanBuildLocations/BlueprintLocation.cs:229-293 | In the Location section, a line with a known key whose value that key's parser rejects fails the whole parse, whatever follows |
| LineFormatProperties.StepKeepsConfig | PlanBuildLocations/BlueprintLocation.cs:170-307 | Any line other than a Location data line leaves the options as they were |
| LineFormatProperties.StepAssigns | PlanBuildLocations/BlueprintLocation.cs:225-298 | A Location data line that the parser accepts is assigned to the options |
| LineFormatProperties.ConfigStep | PlanBuildLocations/BlueprintLocation.cs:170-307 | One parser turn adds its line to the in-order Location assignments exactly when it is a Location data line |
| LineFormatProperties.FeedConfig | PlanBuildLocations/BlueprintLocation.cs:164-298 | After a successful parse, the options are the Location section's data lines assigned in order from none. Data lines of the other sections never touch them |
| LineFormatProperties.ParseConfig | PlanBuildLocations/BlueprintLocation.cs:164-317 | A successful parse has options that are exactly the in-order assignments of its Location lines, so a failing assignment fails the parse. Every option is a recognised key holding a value of its kind |
| LineFormatProperties.FeedData | PlanBuildLocations/BlueprintLocation.cs:217-224 | Outside the Location section, a run of data lines is appended in order to the current list; see also lines 299-306 |
| LineFormatProperties.FeedSection | PlanBuildLocations/BlueprintLocation.cs:193-202 | An optional section is either nothing or its header followed by its lines, and it fills that list; see also lines 338-353 |
| LineFormatProperties.FeedPieces | PlanBuildLocations/BlueprintLocation.cs:208-212 | The `#Pieces` header followed by the piece lines fills the piece list; see also lines 354-358 |
| LineFormatProperties.FeedMetadataLines | PlanBuildLocations/BlueprintLocation.cs:174-192 | The three metadata lines `ToArray` writes set the name, creator and description; see also lines 335-337 |
| LineFormatProperties.FeedSerialized | PlanBuildLocations/BlueprintLocation.cs:156-361 | At the end of parsing what `ToArray` wrote, every list and field holds what was written |
| LineFormatProperties.ParseSerialize | PlanBuildLocations/BlueprintLocation.cs:156-361 | `FromArray(id, ToArray(d))` gives back the name (the id when it was empty), the creator (empty when null), the description and the three lists in order, when every entry line is a data line |
| LineFormatProperties.SerializeSections | PlanBuildLocations/BlueprintLocation.cs:338-354 | The snap point and terrain headers are written exactly when their lists are non-empty. `#Pieces` is always written and `#Location` never |
| LineFormatProperties.HeaderNotStored | PlanBuildLocations/BlueprintLocation.cs:335-358 | `#SnapPoints`, `#Terrain` and `#Location` are none of the metadata lines and none of the stored entry lines |
| LineFormatProperties.TowerSerialize | PlanBuildLocations/BlueprintLocation.cs:326-361 | The one-piece "Tower" document by "Bob" serialises to exactly `#Name:Tower`, `#Creator:Bob`, `#Description:"A tower"`, `#Pieces` and the piece line, in that order |
| LineFormatProperties.TowerExample | PlanBuildLocations/BlueprintLocation.cs:156-320 | Those five lines parse to that document, with the given id, no snap points, no terrain modifiers and no option set; and it serialises back to the same lines |
| LineFormatProperties.AddDataLast | PlanBuildLocations/BlueprintLocation.cs:217-224 | Adding a run of lines is adding all but the last, then the last; see also lines 299-306 |
| BinaryFormat.Int32Bytes | PlanBuildLocations/BlueprintLocation.cs:378 | An `int` is written as four bytes |
| BinaryFormat.Writer.WriteInt32 | PlanBuildLocations/BlueprintLocation.cs:378 | Appends the four bytes of the `int` |
| BinaryFormat.SevenBitAt | PlanBuildLocations/BlueprintLocation.cs:141 | A length prefix that reads consumes at least one byte and stays within the data |
| BinaryFormat.StringBytes | PlanBuildLocations/BlueprintLocation.cs:381 | A written string is longer than its UTF-8 bytes: its length prefix comes first |
| BinaryFormat.Int32At | PlanBuildLocations/BlueprintLocation.cs:138 | `ReadInt32` succeeds exactly when four bytes remain, and moves on four bytes |
| BinaryFormat.Int32RoundTrip | PlanBuildLocations/BlueprintLocation.cs:138 | An `int` written little-endian is read back; see also line 378 |
| BinaryFormat.Wrap32 | PlanBuildLocations/BlueprintLocation.cs:141 | A length that fits an `int` is kept as it is |
| BinaryFormat.SevenBit | PlanBuildLocations/BlueprintLocation.cs:381 | The 7-bit encoding of a length ends with a byte below 0x80 |
| BinaryFormat.GroupsRoundTrip | PlanBuildLocations/BlueprintLocation.cs:141 | 7-bit groups read back as the number they encode; see also line 381 |
| BinaryFormat.SevenBitRoundTrip | PlanBuildLocations/BlueprintLocation.cs:141 | A written length prefix is read back as that length; see also line 381 |
| BinaryFormat.StringAt | PlanBuildLocations/BlueprintLocation.cs:141 | A successful `ReadString` consumes at least one byte and stays within the data |
| BinaryFormat.SevenBitAtReadsLengths | PlanBuildLocations/BlueprintLocation.cs:141 | The length reader reads back every length the writer writes, wherever it stands; see also line 381 |
| BinaryFormat.DecodeDecodesUtf8 | PlanBuildLocations/BlueprintLocation.cs:141 | The UTF-8 decoder decodes back every encoded string, wherever it stands; see also line 381 |
| BinaryFormat.ReadsBackWritten | PlanBuildLocations/BlueprintLocation.cs:141 | A string reader built from any length reader and decoder with those two properties reads back a written string; see also line 381 |
| BinaryFormat.StringRoundTrip | PlanBuildLocations/BlueprintLocation.cs:141 | `ReadString` reads back every string `Write(string)` wrote, whatever surrounds it; see also line 381 |
| BinaryFormat.Writer.WriteString | PlanBuildLocations/BlueprintLocation.cs:381 | Appends the length prefix and the UTF-8 bytes |
| BinaryFormat.Reader.ReadString | PlanBuildLocations/BlueprintLocation.cs:141 | Returns what `StringAt` reads at the position, and moves to its end, or fails with its error |
| BinaryFormat.Reader.ReadInt32 | PlanBuildLocations/BlueprintLocation.cs:138 | Returns what `Int32At` reads at the position, and moves to its end, or fails with its error |
| Utf8.Encode | PlanBuildLocations/BlueprintLocation.cs:381 | The encoding of a string holds at least one and at most four bytes for each of its characters |
| Utf8.DecodeRange | PlanBuildLocations/BlueprintLocation.cs:141 | A decoded range lies within the bytes and gives at most one character per byte. An empty range decodes to the empty string |
| Utf8.EncodeChar | PlanBuildLocations/BlueprintLocation.cs:381 | One to four bytes, and one exactly for ASCII |
| Utf8.DecodeEncodeChar | PlanBuildLocations/BlueprintLocation.cs:141 | The encoding of a character decodes back to it, whatever follows; see also line 381 |
| Utf8.DecodeEncode | PlanBuildLocations/BlueprintLocation.cs:141 | The encoding of a string decodes back to it, wherever it stands; see also line 381 |
| BlobFormat.Frame | PlanBuildLocations/BlueprintLocation.cs:376-383 | The uncompressed blob holds at least the four count bytes and one byte per line |
| BlobFormat.ReadFrame | PlanBuildLocations/BlueprintLocation.cs:136-142 | A stream shorter than four bytes fails with end of stream. A read that succeeds returns as many lines as the count says, or none for a negative count |
| BlobFormat.DecodeBlob | PlanBuildLocations/BlueprintLocation.cs:131-147 | A payload that does not decompress fails. A blob that reads gives a document with the given id and all its lists set |
| BlobFormat.ReadLines | PlanBuildLocations/BlueprintLocation.cs:139-142 | A successful read of n strings returns n of them |
| BlobFormat.ReadLinesFailureStops | PlanBuildLocations/BlueprintLocation.cs:139-142 | Once a read fails, reading more strings fails the same way |
| BlobFormat.ReadLinesRoundTrip | PlanBuildLocations/BlueprintLocation.cs:139-142 | A run of written strings reads back as that run, whatever surrounds it; see also lines 379-382 |
| BlobFormat.FrameRoundTrip | PlanBuildLocations/BlueprintLocation.cs:136-142 | The framed lines read back from the uncompressed blob, whatever follows them; see also lines 376-383 |
| BlobFormat.ShortFrameFails | PlanBuildLocations/BlueprintLocation.cs:138 | A stream shorter than the line count fails with end of stream |
| BlobFormat.NegativeCountReadsNothing | PlanBuildLocations/BlueprintLocation.cs:138-142 | A negative line count reads no line |
| BlobFormat.EncodeBlob | PlanBuildLocations/BlueprintLocation.cs:367-385 | `ToBlob` is null exactly when the piece entries are null |
| BlobFormat.BlobRoundTrip | PlanBuildLocations/BlueprintLocation.cs:131-147 | `FromBlob(id, ToBlob(d))` reads exactly the lines of `ToArray(d)` and parses them as `FromArray` would; see also lines 367-385 |
| ZPackages.StringFieldAt | PlanBuildLocations/BlueprintLocation.cs:120 | Reading a string succeeds exactly at a string field. Past the end it fails as exhausted |
| ZPackages.BytesFieldAt | PlanBuildLocations/BlueprintLocation.cs:121 | Reading a byte array succeeds exactly at a byte field. Past the end it fails as exhausted |
| ZPackages.FieldsRoundTrip | PlanBuildLocations/BlueprintLocation.cs:118-123 | An id and a blob written in a row are read back in that order, whatever surrounds them; see also lines 391-397 |
| ZPackages.ZPackage.Write | PlanBuildLocations/BlueprintLocation.cs:394 | Writing a string appends it and leaves the read position |
| ZPackages.ZPackage.WriteBytes | PlanBuildLocations/BlueprintLocation.cs:395 | Writing a byte array appends it. Writing null fails and writes nothing |
| ZPackages.ZPackage.ReadString | PlanBuildLocations/BlueprintLocation.cs:120 | Reads the string field at the position, and moves on only on success |
| ZPackages.ZPackage.ReadByteArray | PlanBuildLocations/BlueprintLocation.cs:121 | Reads the byte field at the position, and moves on only on success |
| PackageFormat.Pack | PlanBuildLocations/BlueprintLocation.cs:391-397 | `ToZPackage` fails, with the null blob, exactly when there are no piece entries. Otherwise it holds the id, then a byte array |
| PackageFormat.Unpack | PlanBuildLocations/BlueprintLocation.cs:118-123 | Reading past the end fails as exhausted. A package that reads holds the document's id as a string at the read position, followed by a byte array |
| PackageFormat.ShortPackageFails | PlanBuildLocations/BlueprintLocation.cs:118-123 | A package without both an id and a blob fails to read |
| PackageFormat.PackageRoundTrip | PlanBuildLocations/BlueprintLocation.cs:118-147 | `FromZPackage(ToZPackage(d))` reads back `d`'s id first, then the blob, and gives the document `FromBlob` parses from it; see also lines 367-397 |
| PlanBuildLocations.BlueprintLocation.constructor | PlanBuildLocations/BlueprintLocation.cs:41-81 | A new instance has every field unset except the empty description |
| PlanBuildLocations.BlueprintLocation.FromArray | PlanBuildLocations/BlueprintLocation.cs:156-320 | The parser loop builds a new instance whose fields are what `Parse` gives, and fails exactly when and as `Parse` fails |
| PlanBuildLocations.BlueprintLocation.ToArray | PlanBuildLocations/BlueprintLocation.cs:326-361 | The lines added one by one are `Serialize` of the instance |
| PlanBuildLocations.BlueprintLocation.ToBlob | PlanBuildLocations/BlueprintLocation.cs:367-385 | The writer loop and compression give `EncodeBlob` of the instance |
| PlanBuildLocations.BlueprintLocation.FromBlob | PlanBuildLocations/BlueprintLocation.cs:131-147 | Decompressing, reading and parsing give `DecodeBlob`, and fail exactly when and as it fails |
| PlanBuildLocations.BlueprintLocation.ToZPackage | PlanBuildLocations/BlueprintLocation.cs:391-397 | A new package with the fields `Pack` gives, read from the start, or the `Pack` failure |
| PlanBuildLocations.BlueprintLocation.FromZPackage | PlanBuildLocations/BlueprintLocation.cs:118-123 | Reads the id and the blob from the package position and gives `Unpack`'s document, or its failure. The package contents stay as they were |
| PlanBuildLocations.AddAll | PlanBuildLocations/BlueprintLocation.cs:340-358 | The `Add` loop appends the lines in order |
| PlanBuildLocations.WriteFrame | PlanBuildLocations/BlueprintLocation.cs:376-383 | The writer loop produces exactly `Frame` of the lines |
| PlanBuildLocations.ReadFrameLines | PlanBuildLocations/BlueprintLocation.cs:136-142 | The reader loop gives exactly `ReadFrame`: the lines, or the first read failure |

## Left out

- `FromFile` (file I/O and the extension check) is not part of this model. Its `Format` parameter has only one value, `Format.BlueprintLocation`, so it is dropped.
- `CreateLocation` is not part of this model. It builds Unity game objects through Jötunn.
- Plugin.cs, PlanBuildLocations.cs and Config.cs are not part of this model. They are game orchestration and I/O.
- `PieceEntry.FromBlueprint`, the `SnapPointEntry` and `TerrainModEntry` constructors, and `LocationConfig` are defined in libraries that are not shown. Each entry is modelled as a record holding only its line, so an entry constructor that throws is not captured. The options are a map from the lower-case key to the parsed value, with an absent key keeping the library default.
- The value parsers and the compressor are parameters: passed in with their success or failure, never computed. Floats are kept as the `real` the parser returns.
- `ZPackage` is modelled as a sequence of typed fields, not as its byte stream. Reading a field as the wrong type fails, where the real package would misread the bytes. Writing a null byte array is modelled as failing with `NullBlob`, the null reference the write raises.
- The null strings of .NET are modelled as `Option<string>` for the name and creator. The id is a non-null string, so the constructor's null `ID` is the empty string, and a null id passed to `ToZPackage` (which throws) is not captured.
- A document whose piece entries are set but whose snap points or terrain modifiers are null makes `ToArray` throw. `ToArray`, `ToBlob` and `ToZPackage` require `WellFormed` instead of modelling that error.
- PlanBuildLocations.BlueprintLocation.ToBlob: requires `Fits` (at most 2^31 - 1 lines, each at most 2^31 - 1 UTF-8 bytes) instead of modelling the `BinaryWriter` overflow for larger ones.
- Utf8.DecodeRange: decoding is strict (`None` on malformed bytes), where .NET's `Encoding.UTF8` replaces them with U+FFFD. What the model proves is that well-formed UTF-8 reads back. A range whose start is past its end decodes as empty; that case never arises.
- Json.Unquote: it accepts JSON strings and trailing JSON white space only. It rejects escapes of lone surrogates, because a Dafny `char` is a Unicode scalar value. Other SimpleJson leniencies are not captured.
- Text.StartsWith: compared ordinally, character by character. The .NET default is culture-sensitive; for the ASCII headers this makes a difference only for culture-specific ignorable characters.
- Text.Lower: lower-cases ASCII letters only. `ToLowerInvariant` also folds non-ASCII letters, which matters only for keys that are not options anyway.
- Text.IsWhiteSpace: it is the Unicode White_Space set as `char.IsWhiteSpace` defines it. Encodings, normalisation and case folding beyond that are not modelled.
- `LocationPrefab` is not part of this model. Only the left-out `CreateLocation` sets and reads it.
- Json.Quote: it writes RFC 8259's minimal escapes. These are the two-character forms for the quote, the backslash, \b, \f, \n, \r and \t, and `\u00XX` for the other control characters. SimpleJson is not part of this model, so its exact escapes for other characters (for example `/` or non-ASCII) are not captured. What is proved is that the description reads back.
- Logging (`Logger.LogDebug` for an unknown Location key) is not modelled.
