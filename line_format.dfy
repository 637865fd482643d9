/** The line-oriented text form of a blueprint location: the parser
    (`FromArray`) as a state machine folded over the lines, and the
    serialiser (`ToArray`). */
module LineFormat {
  import opened Common
  import opened Text
  import Json
  import opened Documents
  import LocationConfig

  const HEADER_NAME: string := "#Name:"
  const HEADER_CREATOR: string := "#Creator:"
  const HEADER_DESCRIPTION: string := "#Description:"
  const HEADER_SNAP_POINTS: string := "#SnapPoints"
  const HEADER_TERRAIN: string := "#Terrain"
  const HEADER_LOCATION: string := "#Location"
  const HEADER_PIECES: string := "#Pieces"

  /** The section the parser is in: where a data line goes. */
  datatype ParserState = SnapPoints | Terrain | Location | Pieces

  /** The parser's locals and the fields of the document under construction. */
  datatype Acc = Acc(
    state: ParserState,
    name: Option<string>,
    creator: Option<string>,
    description: string,
    pieces: seq<PieceEntry>,
    snaps: seq<SnapPointEntry>,
    terrain: seq<TerrainModEntry>,
    config: LocationConfig.Config)

  /** Before the first line: in the Pieces section, nothing set. */
  const START: Acc := Acc(Pieces, None, None, "", [], [], [], map[])

  /** The section a header line switches to; only an exact match is a header. */
  function SectionOf(line: string): Option<ParserState>
  {
    if line == HEADER_SNAP_POINTS then Some(SnapPoints)
    else if line == HEADER_TERRAIN then Some(Terrain)
    else if line == HEADER_LOCATION then Some(Location)
    else if line == HEADER_PIECES then Some(Pieces)
    else None
  }

  /** A line that goes to the current section: not empty and not starting
      with '#' (every header and every comment starts with '#'). */
  predicate IsData(line: string)
  {
    line != "" && !StartsWith(line, "#")
  }

  /** The value of a `#Description:` line: JSON-unquoted when it starts with
      a quote, taken as it is otherwise. */
  function DescriptionOf(text: string): Result<string>
  {
    if StartsWith(text, "\"") then
      match Json.Unquote(text)
      case Some(s) => Ok(s)
      case None => Err(BadDescription(text))
    else Ok(text)
  }

  /** One turn of the parser loop. Only a `#Description:` line whose JSON
      is malformed and a data line of the Location section can fail. */
  function Step(acc: Acc, line: string, parsers: LocationConfig.ValueParsers): (r: Result<Acc>)
    ensures r.Err? ==> StartsWith(line, HEADER_DESCRIPTION) || (IsData(line) && acc.state == Location)
  {
    if line == "" then Ok(acc)
    else if StartsWith(line, HEADER_NAME) then Ok(acc.(name := Some(line[|HEADER_NAME|..])))
    else if StartsWith(line, HEADER_CREATOR) then Ok(acc.(creator := Some(line[|HEADER_CREATOR|..])))
    else if StartsWith(line, HEADER_DESCRIPTION) then
      match DescriptionOf(line[|HEADER_DESCRIPTION|..])
      case Err(e) => Err(e)
      case Ok(d) => Ok(acc.(description := d))
    else if SectionOf(line).Some? then Ok(acc.(state := SectionOf(line).value))
    else if StartsWith(line, "#") then Ok(acc)
    else
      match acc.state
      case SnapPoints => Ok(acc.(snaps := acc.snaps + [SnapPointEntry(line)]))
      case Terrain => Ok(acc.(terrain := acc.terrain + [TerrainModEntry(line)]))
      case Location =>
        (match LocationConfig.Assign(acc.config, line, parsers)
         case Err(e) => Err(e)
         case Ok(c) => Ok(acc.(config := c)))
      case Pieces => Ok(acc.(pieces := acc.pieces + [PieceEntry(line)]))
  }

  /** The parser loop run over `lines` from `acc`; the first failing line
      fails the whole run. */
  function Feed(acc: Acc, lines: seq<string>, parsers: LocationConfig.ValueParsers): Result<Acc>
    decreases |lines|
  {
    if lines == [] then Ok(acc)
    else
      match Feed(acc, lines[..|lines| - 1], parsers)
      case Err(e) => Err(e)
      case Ok(a) => Step(a, lines[|lines| - 1], parsers)
  }

  /** What `FromArray` does after the loop: default the name to the id and
      publish the lists. */
  function Finish(id: string, acc: Acc): Document
  {
    Document(
      id,
      if acc.name == None || acc.name == Some("") then Some(id) else acc.name,
      acc.creator,
      acc.description,
      Some(acc.pieces),
      Some(acc.snaps),
      Some(acc.terrain),
      Some(acc.config))
  }

  /** `FromArray(id, lines, Format.BlueprintLocation)`. */
  function Parse(id: string, lines: seq<string>, parsers: LocationConfig.ValueParsers): (r: Result<Document>)
    ensures r.Ok? ==> r.value.id == id && WellFormed(r.value)
    ensures r.Ok? ==> r.value.pieceEntries.Some? && r.value.locationConfig.Some?
    ensures r.Ok? ==> r.value.name.Some? && (id != "" ==> r.value.name.value != "")
  {
    match Feed(START, lines, parsers)
    case Err(e) => Err(e)
    case Ok(acc) => Ok(Finish(id, acc))
  }

  /** The lines of an optional section: nothing at all when it is empty. */
  function Section(header: string, lines: seq<string>): (r: seq<string>)
    ensures |r| == if lines == [] then 0 else 1 + |lines|
  {
    if lines == [] then [] else [header] + lines
  }

  /** `ToArray()`: null (`None`) exactly when there are no piece entries. */
  function Serialize(d: Document): (r: Option<seq<string>>)
    requires WellFormed(d)
    ensures r.None? <==> d.pieceEntries.None?
    ensures r.Some? ==>
              |r.value| == 4 + |d.pieceEntries.value|
                           + (if d.snapPoints.value == [] then 0 else 1 + |d.snapPoints.value|)
                           + (if d.terrainMods.value == [] then 0 else 1 + |d.terrainMods.value|)
  {
    if d.pieceEntries.None? then None
    else
      Some([HEADER_NAME + OrEmpty(d.name),
            HEADER_CREATOR + OrEmpty(d.creator),
            HEADER_DESCRIPTION + Json.Quote(d.description)]
           + Section(HEADER_SNAP_POINTS, SnapLines(d.snapPoints.value))
           + Section(HEADER_TERRAIN, TerrainLines(d.terrainMods.value))
           + [HEADER_PIECES] + PieceLines(d.pieceEntries.value))
  }
}
