/** `PlanBuildLocations.BlueprintLocation`: a blueprint of a game location,
    read from its text lines, its compressed blob or a package, and written
    back to each of them. */
module PlanBuildLocations {
  import opened Common
  import opened Text
  import Json
  import opened Documents
  import LocationConfig
  import opened LineFormat
  import LineFormatProperties
  import opened BinaryFormat
  import opened BlobFormat
  import opened ZPackages
  import opened PackageFormat

  class BlueprintLocation {
    var id: string
    var name: Option<string>
    var creator: Option<string>
    var description: string
    var pieceEntries: Option<seq<PieceEntry>>
    var snapPoints: Option<seq<SnapPointEntry>>
    var terrainMods: Option<seq<TerrainModEntry>>
    var locationConfig: Option<LocationConfig.Config>

    /** The fields as a value. */
    function Snapshot(): Document
      reads this
    {
      Document(id, name, creator, description, pieceEntries, snapPoints, terrainMods, locationConfig)
    }

    /** `new BlueprintLocation()`: every field unset, the description empty. */
    constructor ()
      ensures Snapshot() == BLANK
    {
      id := "";
      name := None;
      creator := None;
      description := "";
      pieceEntries := None;
      snapPoints := None;
      terrainMods := None;
      locationConfig := None;
    }

    /** `FromArray(id, lines, Format.BlueprintLocation)`: the parser loop, one
        line per turn, on the fields of a new instance and three lists. It
        builds what `Parse` describes and fails where `Parse` fails. */
    static method FromArray(id: string, lines: seq<string>, parsers: LocationConfig.ValueParsers)
      returns (r: Result<BlueprintLocation>)
      ensures r.Err? <==> Parse(id, lines, parsers).Err?
      ensures r.Err? ==> r.error == Parse(id, lines, parsers).error
      ensures r.Ok? ==> fresh(r.value) && r.value.Snapshot() == Parse(id, lines, parsers).value
    {
      var ret := new BlueprintLocation();
      ret.id := id;
      var pieces: seq<PieceEntry> := [];
      var snaps: seq<SnapPointEntry> := [];
      var terrain: seq<TerrainModEntry> := [];
      ret.locationConfig := Some(map[]);
      var state := Pieces;
      var i := 0;
      while i < |lines|
        invariant i <= |lines|
        invariant ret.id == id && ret.locationConfig.Some?
        invariant ret.pieceEntries.None? && ret.snapPoints.None? && ret.terrainMods.None?
        invariant Feed(START, lines[..i], parsers) ==
                  Ok(Acc(state, ret.name, ret.creator, ret.description, pieces, snaps, terrain, ret.locationConfig.value))
      {
        var line := lines[i];
        assert lines[..i + 1][..i] == lines[..i];
        ghost var acc := Acc(state, ret.name, ret.creator, ret.description, pieces, snaps, terrain, ret.locationConfig.value);
        assert Feed(START, lines[..i + 1], parsers) == Step(acc, line, parsers);
        if line == "" {
        } else if StartsWith(line, HEADER_NAME) {
          ret.name := Some(line[|HEADER_NAME|..]);
        } else if StartsWith(line, HEADER_CREATOR) {
          ret.creator := Some(line[|HEADER_CREATOR|..]);
        } else if StartsWith(line, HEADER_DESCRIPTION) {
          ret.description := line[|HEADER_DESCRIPTION|..];
          if StartsWith(ret.description, "\"") {
            var unquoted := Json.Unquote(ret.description);
            if unquoted.None? {
              LineFormatProperties.FeedFailureStops(START, lines, i + 1, BadDescription(ret.description), parsers);
              return Err(BadDescription(ret.description));
            }
            ret.description := unquoted.value;
          }
        } else if line == HEADER_SNAP_POINTS {
          state := SnapPoints;
        } else if line == HEADER_TERRAIN {
          state := Terrain;
        } else if line == HEADER_LOCATION {
          state := Location;
        } else if line == HEADER_PIECES {
          state := Pieces;
        } else if StartsWith(line, "#") {
        } else {
          match state {
            case SnapPoints =>
              snaps := snaps + [SnapPointEntry(line)];
            case Terrain =>
              terrain := terrain + [TerrainModEntry(line)];
            case Location =>
              var updated := LocationConfig.Assign(ret.locationConfig.value, line, parsers);
              if updated.Err? {
                LineFormatProperties.FeedFailureStops(START, lines, i + 1, updated.error, parsers);
                return Err(updated.error);
              }
              ret.locationConfig := Some(updated.value);
            case Pieces =>
              pieces := pieces + [PieceEntry(line)];
          }
        }
        i := i + 1;
      }
      assert lines[..i] == lines;
      if ret.name == None || ret.name == Some("") {
        ret.name := Some(ret.id);
      }
      ret.snapPoints := Some(snaps);
      ret.terrainMods := Some(terrain);
      ret.pieceEntries := Some(pieces);
      return Ok(ret);
    }

    /** `ToArray()`: the lines `Serialize` describes, added one at a time;
        null (`None`) when there are no piece entries. */
    method ToArray() returns (r: Option<seq<string>>)
      requires WellFormed(Snapshot())
      ensures r == Serialize(Snapshot())
    {
      if pieceEntries.None? {
        return None;
      }
      var ret: seq<string> := [];
      ret := ret + [HEADER_NAME + OrEmpty(name)];
      ret := ret + [HEADER_CREATOR + OrEmpty(creator)];
      ret := ret + [HEADER_DESCRIPTION + Json.Quote(description)];
      ghost var meta := ret;
      assert meta == [HEADER_NAME + OrEmpty(name), HEADER_CREATOR + OrEmpty(creator),
                      HEADER_DESCRIPTION + Json.Quote(description)];
      var ss := snapPoints.value;
      if |ss| > 0 {
        ret := ret + [HEADER_SNAP_POINTS];
        ret := AddAll(ret, SnapLines(ss));
      }
      assert ret == meta + Section(HEADER_SNAP_POINTS, SnapLines(ss));
      ghost var snapped := ret;
      var ts := terrainMods.value;
      if |ts| > 0 {
        ret := ret + [HEADER_TERRAIN];
        ret := AddAll(ret, TerrainLines(ts));
      }
      assert ret == snapped + Section(HEADER_TERRAIN, TerrainLines(ts));
      ret := ret + [HEADER_PIECES];
      var ps := pieceEntries.value;
      ret := AddAll(ret, PieceLines(ps));
      assert ret == meta + Section(HEADER_SNAP_POINTS, SnapLines(ss)) + Section(HEADER_TERRAIN, TerrainLines(ts))
                    + [HEADER_PIECES] + PieceLines(ps);
      return Some(ret);
    }

    /** `ToBlob()`: the line count and the lines written by a `BinaryWriter`,
        then compressed; null (`None`) when `ToArray` gives null or nothing. */
    method ToBlob(c: Compressor) returns (r: Option<seq<byte>>)
      requires WellFormed(Snapshot()) && Fits(Snapshot())
      ensures r == EncodeBlob(Snapshot(), c)
    {
      var lines := ToArray();
      if lines.None? || |lines.value| == 0 {
        return None;
      }
      var frame := WriteFrame(lines.value);
      return Some(c.compress(frame));
    }

    /** `FromBlob(id, payload)`: decompress, read the line count and that many
        strings with a `BinaryReader`, then parse them. It builds what
        `DecodeBlob` describes and fails where `DecodeBlob` fails. */
    static method FromBlob(id: string, payload: seq<byte>, c: Compressor, parsers: LocationConfig.ValueParsers)
      returns (r: Result<BlueprintLocation>)
      ensures r.Err? <==> DecodeBlob(id, payload, c, parsers).Err?
      ensures r.Err? ==> r.error == DecodeBlob(id, payload, c, parsers).error
      ensures r.Ok? ==> fresh(r.value) && r.value.Snapshot() == DecodeBlob(id, payload, c, parsers).value
    {
      var data := c.decompress(payload);
      if data.None? {
        return Err(CorruptCompression);
      }
      var lines := ReadFrameLines(data.value);
      if lines.Err? {
        return Err(lines.error);
      }
      r := FromArray(id, lines.value, parsers);
    }

    /** `ToZPackage()`: a new package holding the id, then the blob. Writing
        the null blob of a document without piece entries fails. */
    method ToZPackage(c: Compressor) returns (r: Result<ZPackage>)
      requires WellFormed(Snapshot()) && Fits(Snapshot())
      ensures r.Err? <==> Pack(Snapshot(), c).Err?
      ensures r.Err? ==> r.error == Pack(Snapshot(), c).error
      ensures r.Ok? ==> fresh(r.value) && r.value.fields == Pack(Snapshot(), c).value && r.value.pos == 0
    {
      var package := new ZPackage();
      package.Write(id);
      var blob := ToBlob(c);
      var written := package.WriteBytes(blob);
      if written.Err? {
        return Err(written.error);
      }
      return Ok(package);
    }

    /** `FromZPackage(pkg)`: read the id, then the blob, from the package's
        read position, and hand them to `FromBlob`. It builds what `Unpack`
        describes and fails where `Unpack` fails. */
    static method FromZPackage(pkg: ZPackage, c: Compressor, parsers: LocationConfig.ValueParsers)
      returns (r: Result<BlueprintLocation>)
      modifies pkg
      ensures pkg.fields == old(pkg.fields)
      ensures r.Err? <==> Unpack(old(pkg.fields), old(pkg.pos), c, parsers).Err?
      ensures r.Err? ==> r.error == Unpack(old(pkg.fields), old(pkg.pos), c, parsers).error
      ensures r.Ok? ==> fresh(r.value) && r.value.Snapshot() == Unpack(old(pkg.fields), old(pkg.pos), c, parsers).value
                        && pkg.pos == old(pkg.pos) + 2
    {
      var id := pkg.ReadString();
      if id.Err? {
        return Err(id.error);
      }
      var blob := pkg.ReadByteArray();
      if blob.Err? {
        return Err(blob.error);
      }
      r := FromBlob(id.value, blob.value, c, parsers);
    }
  }

  /** `ret.Add` for each of `ls` in turn. */
  method AddAll(ret: seq<string>, ls: seq<string>) returns (r: seq<string>)
    ensures r == ret + ls
  {
    r := ret;
    var k := 0;
    while k < |ls|
      invariant k <= |ls| && r == ret + ls[..k]
    {
      PrefixSnoc(ret, ls, k);
      r := r + [ls[k]];
      k := k + 1;
    }
    assert ls[..k] == ls;
  }

  /** The `BinaryWriter` block of `ToBlob`: the line count, then each line. */
  method WriteFrame(ls: seq<string>) returns (bytes: seq<byte>)
    requires LinesFit(ls)
    ensures bytes == Frame(ls)
  {
    var writer := new Writer();
    writer.WriteInt32(|ls|);
    var k := 0;
    assert ls[..0] == [];
    while k < |ls|
      invariant k <= |ls| && StringsFit(ls[..k])
      invariant writer.bytes == Int32Bytes(|ls|) + LinesBytes(ls[..k])
    {
      LinesBytesSnoc(Int32Bytes(|ls|), ls, k);
      writer.WriteString(ls[k]);
      k := k + 1;
    }
    assert ls[..k] == ls;
    bytes := writer.bytes;
  }

  /** The `BinaryReader` block of `FromBlob`: the line count, then that many
      strings; a negative count reads none. */
  method ReadFrameLines(data: seq<byte>) returns (r: Result<seq<string>>)
    ensures r == ReadFrame(data)
  {
    var reader := new Reader(data);
    var numLines := reader.ReadInt32();
    if numLines.Err? {
      return Err(numLines.error);
    }
    var n := numLines.value;
    ghost var count: nat := if n < 0 then 0 else n;
    ghost var start := reader.pos;
    var lines: seq<string> := [];
    var i := 0;
    while i < n
      invariant i <= count
      invariant reader.data == data && start == Int32At(data, 0).value.1
      invariant ReadLines(StringAt, data, start, i) == Ok((lines, reader.pos))
    {
      var line := reader.ReadString();
      if line.Err? {
        ReadLinesFailureStops(StringAt, data, start, i + 1, count, line.error);
        return Err(line.error);
      }
      lines := lines + [line.value];
      i := i + 1;
    }
    return Ok(lines);
  }
}
