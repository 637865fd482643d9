/** The blueprint location document and the entry records it holds. */
module Documents {
  import opened Common
  import LocationConfig

  /** A placed building piece. The piece codec belongs to the PlanBuild
      library; this core keeps and writes back only the entry's line. */
  datatype PieceEntry = PieceEntry(line: string)

  /** A snap point marker, known here by its line. */
  datatype SnapPointEntry = SnapPointEntry(line: string)

  /** A terrain modifier, known here by its line. */
  datatype TerrainModEntry = TerrainModEntry(line: string)

  /** The fields of a `BlueprintLocation` that the codec reads and writes.
      `None` is the .NET `null` of a field that was never assigned. */
  datatype Document = Document(
    id: string,
    name: Option<string>,
    creator: Option<string>,
    description: string,
    pieceEntries: Option<seq<PieceEntry>>,
    snapPoints: Option<seq<SnapPointEntry>>,
    terrainMods: Option<seq<TerrainModEntry>>,
    locationConfig: Option<LocationConfig.Config>)

  /** The fields of a freshly constructed `BlueprintLocation`. */
  const BLANK: Document := Document("", None, None, "", None, None, None, None)

  /** A document `ToArray` can write without a null dereference: once the pieces
      are set, so are the snap points and terrain modifiers. */
  predicate WellFormed(d: Document)
  {
    d.pieceEntries.Some? ==> d.snapPoints.Some? && d.terrainMods.Some?
  }

  function PieceLines(es: seq<PieceEntry>): seq<string>
  {
    seq(|es|, i requires 0 <= i < |es| => es[i].line)
  }

  function SnapLines(es: seq<SnapPointEntry>): seq<string>
  {
    seq(|es|, i requires 0 <= i < |es| => es[i].line)
  }

  function TerrainLines(es: seq<TerrainModEntry>): seq<string>
  {
    seq(|es|, i requires 0 <= i < |es| => es[i].line)
  }

  /** A string as C# concatenation sees it: `null` reads as empty. */
  function OrEmpty(s: Option<string>): string
  {
    if s.Some? then s.value else ""
  }
}
