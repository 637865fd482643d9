/** What the line parser and the serialiser promise: where each line goes,
    which header sets which field, how Location lines fail or are ignored,
    and that parsing a serialised document gives it back. */
module LineFormatProperties {
  import opened Common
  import opened Text
  import Json
  import opened Documents
  import LocationConfig
  import opened LineFormat

  /** Runs the parser on `lines` after an earlier run that ended in `r`. */
  function Then(r: Result<Acc>, lines: seq<string>, parsers: LocationConfig.ValueParsers): Result<Acc>
  {
    match r
    case Err(e) => Err(e)
    case Ok(a) => Feed(a, lines, parsers)
  }

  /** Feeding two runs of lines is feeding the first and then the second. */
  lemma {:induction false} FeedAppend(acc: Acc, a: seq<string>, b: seq<string>, parsers: LocationConfig.ValueParsers)
    ensures Feed(acc, a + b, parsers) == Then(Feed(acc, a, parsers), b, parsers)
    decreases |b|
  {
    if b == [] {
      assert a + b == a;
    } else {
      var ab := a + b;
      assert ab[..|ab| - 1] == a + b[..|b| - 1];
      assert ab[|ab| - 1] == b[|b| - 1];
      FeedAppend(acc, a, b[..|b| - 1], parsers);
    }
  }

  /** A line that fails fails the whole run: nothing after it is parsed. */
  lemma FeedFailureStops(acc: Acc, lines: seq<string>, i: nat, e: Failure, parsers: LocationConfig.ValueParsers)
    requires i <= |lines| && Feed(acc, lines[..i], parsers) == Err(e)
    ensures Feed(acc, lines, parsers) == Err(e)
  {
    FeedAppend(acc, lines[..i], lines[i..], parsers);
    assert lines[..i] + lines[i..] == lines;
  }

  lemma FeedOne(acc: Acc, line: string, parsers: LocationConfig.ValueParsers)
    ensures Feed(acc, [line], parsers) == Step(acc, line, parsers)
  {
    assert [line][..0] == [];
  }

  /** No line starts with two different headers, a section header starts
      with none of the metadata headers, and every header starts with '#'. */
  lemma HeadersDisjoint(line: string)
    ensures StartsWith(line, HEADER_NAME) ==> !StartsWith(line, HEADER_CREATOR) && !StartsWith(line, HEADER_DESCRIPTION)
    ensures StartsWith(line, HEADER_CREATOR) ==> !StartsWith(line, HEADER_DESCRIPTION)
    ensures SectionOf(line).Some? ==>
              !StartsWith(line, HEADER_NAME) && !StartsWith(line, HEADER_CREATOR) && !StartsWith(line, HEADER_DESCRIPTION)
    ensures (StartsWith(line, HEADER_NAME) || StartsWith(line, HEADER_CREATOR) || StartsWith(line, HEADER_DESCRIPTION)
             || SectionOf(line).Some?) ==> StartsWith(line, "#")
  {
    if StartsWith(line, HEADER_NAME) {
      assert line[1] == line[..|HEADER_NAME|][1] == 'N';
      assert line[..1] == line[..|HEADER_NAME|][..1];
    }
    if StartsWith(line, HEADER_CREATOR) {
      assert line[1] == line[..|HEADER_CREATOR|][1] == 'C';
      assert line[..1] == line[..|HEADER_CREATOR|][..1];
    }
    if StartsWith(line, HEADER_DESCRIPTION) {
      assert line[1] == line[..|HEADER_DESCRIPTION|][1] == 'D';
      assert line[..1] == line[..|HEADER_DESCRIPTION|][..1];
    }
    if SectionOf(line).Some? {
      assert line[1] != 'N' && line[1] != 'C' && line[1] != 'D';
      assert line[..1] == "#";
    }
  }

  /** A data line goes to the list of the current section, or through the
      option assignment in the Location section. */
  lemma DataStep(acc: Acc, line: string, parsers: LocationConfig.ValueParsers)
    requires IsData(line)
    ensures Step(acc, line, parsers) ==
            match acc.state
            case SnapPoints => Ok(acc.(snaps := acc.snaps + [SnapPointEntry(line)]))
            case Terrain => Ok(acc.(terrain := acc.terrain + [TerrainModEntry(line)]))
            case Location =>
              (match LocationConfig.Assign(acc.config, line, parsers)
               case Err(e) => Err(e)
               case Ok(c) => Ok(acc.(config := c)))
            case Pieces => Ok(acc.(pieces := acc.pieces + [PieceEntry(line)]))
  {
    HeadersDisjoint(line);
  }

  // ---------------------------------------------------------------------
  // Where the lines go: a reference definition that classifies each line on
  // its own, by the last section header before it.

  /** The section in force after `lines`: the one named by the last section
      header among them, Pieces when there is none. */
  function StateAfter(lines: seq<string>): ParserState
  {
    if lines == [] then Pieces
    else if SectionOf(lines[|lines| - 1]).Some? then SectionOf(lines[|lines| - 1]).value
    else StateAfter(lines[..|lines| - 1])
  }

  /** The data lines of `lines` that fall under section `s`, in input order. */
  function DataIn(lines: seq<string>, s: ParserState): seq<string>
  {
    if lines == [] then []
    else
      var init := lines[..|lines| - 1];
      var last := lines[|lines| - 1];
      DataIn(init, s) + (if IsData(last) && StateAfter(init) == s then [last] else [])
  }

  /** All data lines of `lines`, in input order. */
  function DataLines(lines: seq<string>): seq<string>
  {
    if lines == [] then []
    else DataLines(lines[..|lines| - 1]) + (if IsData(lines[|lines| - 1]) then [lines[|lines| - 1]] else [])
  }

  /** Every data line falls under exactly one section. */
  lemma {:induction false} DataPartition(lines: seq<string>)
    ensures |DataIn(lines, SnapPoints)| + |DataIn(lines, Terrain)|
            + |DataIn(lines, Location)| + |DataIn(lines, Pieces)| == |DataLines(lines)|
  {
    if lines != [] {
      DataPartition(lines[..|lines| - 1]);
    }
  }

  /** What a successful parse stored: each list holds exactly the data lines
      of its section, in input order, and nothing else (no blank line, no
      header, no comment); the parser ends in the section of the last
      section header, Pieces if there was none. */
  lemma {:induction false} FeedSorts(lines: seq<string>, parsers: LocationConfig.ValueParsers, acc: Acc)
    requires Feed(START, lines, parsers) == Ok(acc)
    ensures acc.state == StateAfter(lines)
    ensures PieceLines(acc.pieces) == DataIn(lines, Pieces)
    ensures SnapLines(acc.snaps) == DataIn(lines, SnapPoints)
    ensures TerrainLines(acc.terrain) == DataIn(lines, Terrain)
    decreases |lines|
  {
    if lines != [] {
      var init := lines[..|lines| - 1];
      var line := lines[|lines| - 1];
      var a :| Feed(START, init, parsers) == Ok(a) by {
        if Feed(START, init, parsers).Err? { assert false; }
      }
      FeedSorts(init, parsers, a);
      assert Step(a, line, parsers) == Ok(acc);
      HeadersDisjoint(line);
      if IsData(line) {
        DataStep(a, line, parsers);
        assert SectionOf(line).None?;
        match a.state
        case SnapPoints =>
          assert SnapLines(a.snaps + [SnapPointEntry(line)]) == SnapLines(a.snaps) + [line];
        case Terrain =>
          assert TerrainLines(a.terrain + [TerrainModEntry(line)]) == TerrainLines(a.terrain) + [line];
        case Location =>
        case Pieces =>
          assert PieceLines(a.pieces + [PieceEntry(line)]) == PieceLines(a.pieces) + [line];
      }
    }
  }

  /** The data lines of a section are data lines. */
  lemma {:induction false} DataInIsData(lines: seq<string>, s: ParserState)
    ensures forall k :: 0 <= k < |DataIn(lines, s)| ==> IsData(DataIn(lines, s)[k])
  {
    if lines != [] {
      DataInIsData(lines[..|lines| - 1], s);
    }
  }

  /** Headers, blank lines and comments are never stored as entries. */
  lemma StoredLinesAreData(lines: seq<string>, parsers: LocationConfig.ValueParsers, acc: Acc)
    requires Feed(START, lines, parsers) == Ok(acc)
    ensures forall k :: 0 <= k < |acc.pieces| ==> IsData(acc.pieces[k].line)
    ensures forall k :: 0 <= k < |acc.snaps| ==> IsData(acc.snaps[k].line)
    ensures forall k :: 0 <= k < |acc.terrain| ==> IsData(acc.terrain[k].line)
  {
    FeedSorts(lines, parsers, acc);
    DataInIsData(lines, Pieces);
    DataInIsData(lines, SnapPoints);
    DataInIsData(lines, Terrain);
    forall k | 0 <= k < |acc.pieces| ensures IsData(acc.pieces[k].line) {
      assert acc.pieces[k].line == PieceLines(acc.pieces)[k];
    }
    forall k | 0 <= k < |acc.snaps| ensures IsData(acc.snaps[k].line) {
      assert acc.snaps[k].line == SnapLines(acc.snaps)[k];
    }
    forall k | 0 <= k < |acc.terrain| ensures IsData(acc.terrain[k].line) {
      assert acc.terrain[k].line == TerrainLines(acc.terrain)[k];
    }
  }

  // ---------------------------------------------------------------------
  // Metadata headers, whatever section they appear in.

  /** The rest of the last line that starts with `header`, if there is one. */
  function LastValue(lines: seq<string>, header: string): Option<string>
  {
    if lines == [] then None
    else if StartsWith(lines[|lines| - 1], header) then Some(lines[|lines| - 1][|header|..])
    else LastValue(lines[..|lines| - 1], header)
  }

  /** The name and creator are the values of the last `#Name:` and
      `#Creator:` lines, and the description the decoded value of the last
      `#Description:` line (empty when there is none), wherever those lines
      stand among the sections. */
  lemma {:induction false} FeedMetadata(lines: seq<string>, parsers: LocationConfig.ValueParsers, acc: Acc)
    requires Feed(START, lines, parsers) == Ok(acc)
    ensures acc.name == LastValue(lines, HEADER_NAME)
    ensures acc.creator == LastValue(lines, HEADER_CREATOR)
    ensures LastValue(lines, HEADER_DESCRIPTION).None? ==> acc.description == ""
    ensures LastValue(lines, HEADER_DESCRIPTION).Some? ==>
              DescriptionOf(LastValue(lines, HEADER_DESCRIPTION).value) == Ok(acc.description)
    decreases |lines|
  {
    if lines != [] {
      var init := lines[..|lines| - 1];
      var line := lines[|lines| - 1];
      var a :| Feed(START, init, parsers) == Ok(a) by {
        if Feed(START, init, parsers).Err? { assert false; }
      }
      FeedMetadata(init, parsers, a);
      assert Step(a, line, parsers) == Ok(acc);
      HeadersDisjoint(line);
      if IsData(line) {
        DataStep(a, line, parsers);
      }
    }
  }

  /** After parsing, the name is the last `#Name:` value, or the id when that
      is missing or empty. */
  lemma NameDefaultsToId(id: string, lines: seq<string>, parsers: LocationConfig.ValueParsers)
    requires Parse(id, lines, parsers).Ok?
    ensures var v := LastValue(lines, HEADER_NAME);
            Parse(id, lines, parsers).value.name == if v == None || v == Some("") then Some(id) else v
  {
    var acc := Feed(START, lines, parsers).value;
    FeedMetadata(lines, parsers, acc);
  }

  // ---------------------------------------------------------------------
  // The Location section.

  /** In the Location section a data line without ':' fails the whole parse,
      whatever follows it. */
  lemma ColonlessOptionLineFails(prefix: seq<string>, line: string, suffix: seq<string>, parsers: LocationConfig.ValueParsers)
    requires Feed(START, prefix, parsers).Ok? && StateAfter(prefix) == Location
    requires IsData(line) && ':' !in line
    ensures Feed(START, prefix + [line] + suffix, parsers) == Err(MissingOptionValue(line))
  {
    var acc := Feed(START, prefix, parsers).value;
    FeedSorts(prefix, parsers, acc);
    DataStep(acc, line, parsers);
    FeedAppend(START, prefix, [line], parsers);
    FeedOne(acc, line, parsers);
    FeedAppend(START, prefix + [line], suffix, parsers);
  }

  /** In the Location section a line whose key is not an option is skipped:
      the parse goes on as if the line were not there. */
  lemma UnknownOptionIgnored(prefix: seq<string>, line: string, suffix: seq<string>, parsers: LocationConfig.ValueParsers)
    requires Feed(START, prefix, parsers).Ok? && StateAfter(prefix) == Location
    requires IsData(line) && ':' in line && LocationConfig.OptionKey(line) !in LocationConfig.OPTION_KINDS
    ensures Feed(START, prefix + [line] + suffix, parsers) == Feed(START, prefix + suffix, parsers)
  {
    var acc := Feed(START, prefix, parsers).value;
    FeedSorts(prefix, parsers, acc);
    DataStep(acc, line, parsers);
    FeedAppend(START, prefix, [line], parsers);
    FeedOne(acc, line, parsers);
    FeedAppend(START, prefix + [line], suffix, parsers);
    FeedAppend(START, prefix, suffix, parsers);
  }

  /** A Location line whose key is an option but whose value the option's
      parser rejects fails the whole parse, whatever follows it. */
  lemma BadOptionValueFails(prefix: seq<string>, line: string, suffix: seq<string>, parsers: LocationConfig.ValueParsers)
    requires Feed(START, prefix, parsers).Ok? && StateAfter(prefix) == Location
    requires IsData(line) && ':' in line && LocationConfig.OptionKey(line) in LocationConfig.OPTION_KINDS
    requires LocationConfig.ParseValue(LocationConfig.OPTION_KINDS[LocationConfig.OptionKey(line)],
                                       LocationConfig.OptionText(line), parsers).None?
    ensures Feed(START, prefix + [line] + suffix, parsers) ==
            Err(BadOptionValue(LocationConfig.OptionKey(line), LocationConfig.OptionText(line)))
  {
    var acc := Feed(START, prefix, parsers).value;
    FeedSorts(prefix, parsers, acc);
    DataStep(acc, line, parsers);
    FeedAppend(START, prefix, [line], parsers);
    FeedOne(acc, line, parsers);
    FeedAppend(START, prefix + [line], suffix, parsers);
  }

  /** A parser turn on anything but a Location data line keeps the options. */
  lemma StepKeepsConfig(a: Acc, line: string, parsers: LocationConfig.ValueParsers, acc: Acc)
    requires Step(a, line, parsers) == Ok(acc) && !(IsData(line) && a.state == Location)
    ensures acc.config == a.config
  {
    if IsData(line) {
      DataStep(a, line, parsers);
    }
  }

  /** A parser turn on a Location data line assigns it. */
  lemma StepAssigns(a: Acc, line: string, parsers: LocationConfig.ValueParsers, acc: Acc)
    requires Step(a, line, parsers) == Ok(acc) && IsData(line) && a.state == Location
    ensures LocationConfig.Assign(a.config, line, parsers) == Ok(acc.config)
  {
    DataStep(a, line, parsers);
  }

  /** One parser turn adds a line to the assignments exactly when it is a
      data line of the Location section. */
  lemma ConfigStep(a: Acc, line: string, parsers: LocationConfig.ValueParsers, before: seq<string>, acc: Acc)
    requires Step(a, line, parsers) == Ok(acc)
    requires LocationConfig.ApplyAll(map[], before, parsers) == Ok(a.config)
    ensures LocationConfig.ApplyAll(map[], before + (if IsData(line) && a.state == Location then [line] else []), parsers)
            == Ok(acc.config)
  {
    if IsData(line) && a.state == Location {
      StepAssigns(a, line, parsers, acc);
      LocationConfig.ApplyAllSnoc(map[], before, line, parsers);
    } else {
      StepKeepsConfig(a, line, parsers, acc);
      assert before + [] == before;
    }
  }

  /** The options after a successful parse are the Location lines assigned
      in order from no option at all: data lines of the other sections never
      touch them. */
  lemma {:induction false} FeedConfig(lines: seq<string>, parsers: LocationConfig.ValueParsers, acc: Acc)
    requires Feed(START, lines, parsers) == Ok(acc)
    ensures LocationConfig.ApplyAll(map[], DataIn(lines, Location), parsers) == Ok(acc.config)
    decreases |lines|
  {
    if lines != [] {
      var init := lines[..|lines| - 1];
      var line := lines[|lines| - 1];
      var a :| Feed(START, init, parsers) == Ok(a) by {
        if Feed(START, init, parsers).Err? { assert false; }
      }
      FeedConfig(init, parsers, a);
      FeedSorts(init, parsers, a);
      ConfigStep(a, line, parsers, DataIn(init, Location), acc);
    }
  }

  /** A parse succeeds only when its Location lines assign without failure,
      and then its options are exactly those assignments, each a recognised
      key holding a value of that key's kind. */
  lemma ParseConfig(id: string, lines: seq<string>, parsers: LocationConfig.ValueParsers)
    requires Parse(id, lines, parsers).Ok?
    ensures LocationConfig.ApplyAll(map[], DataIn(lines, Location), parsers).Ok?
    ensures Parse(id, lines, parsers).value.locationConfig ==
            Some(LocationConfig.ApplyAll(map[], DataIn(lines, Location), parsers).value)
    ensures LocationConfig.Typed(Parse(id, lines, parsers).value.locationConfig.value)
  {
    var acc := Feed(START, lines, parsers).value;
    FeedConfig(lines, parsers, acc);
    LocationConfig.ApplyAllTyped(map[], DataIn(lines, Location), parsers);
  }

  // ---------------------------------------------------------------------
  // Serialising and parsing back.

  /** `acc` with the data lines `ls` added to the list of its section. */
  function AddData(acc: Acc, ls: seq<string>): Acc
  {
    match acc.state
    case SnapPoints => acc.(snaps := acc.snaps + seq(|ls|, i requires 0 <= i < |ls| => SnapPointEntry(ls[i])))
    case Terrain => acc.(terrain := acc.terrain + seq(|ls|, i requires 0 <= i < |ls| => TerrainModEntry(ls[i])))
    case Location => acc
    case Pieces => acc.(pieces := acc.pieces + seq(|ls|, i requires 0 <= i < |ls| => PieceEntry(ls[i])))
  }

  lemma AddDataLast(acc: Acc, ls: seq<string>)
    requires ls != []
    ensures var init, line := ls[..|ls| - 1], ls[|ls| - 1];
            match acc.state
            case SnapPoints => AddData(acc, ls) == AddData(acc, init).(snaps := AddData(acc, init).snaps + [SnapPointEntry(line)])
            case Terrain => AddData(acc, ls) == AddData(acc, init).(terrain := AddData(acc, init).terrain + [TerrainModEntry(line)])
            case Location => AddData(acc, ls) == AddData(acc, init)
            case Pieces => AddData(acc, ls) == AddData(acc, init).(pieces := AddData(acc, init).pieces + [PieceEntry(line)])
  {
    var init, line := ls[..|ls| - 1], ls[|ls| - 1];
    match acc.state
    case SnapPoints =>
      assert AddData(acc, init).snaps + [SnapPointEntry(line)] == AddData(acc, ls).snaps;
    case Terrain =>
      assert AddData(acc, init).terrain + [TerrainModEntry(line)] == AddData(acc, ls).terrain;
    case Location =>
    case Pieces =>
      assert AddData(acc, init).pieces + [PieceEntry(line)] == AddData(acc, ls).pieces;
  }

  /** A run of data lines outside the Location section is appended, in order,
      to the list of the current section. */
  lemma {:induction false} FeedData(acc: Acc, ls: seq<string>, parsers: LocationConfig.ValueParsers)
    requires acc.state != Location
    requires forall k :: 0 <= k < |ls| ==> IsData(ls[k])
    ensures Feed(acc, ls, parsers) == Ok(AddData(acc, ls))
    decreases |ls|
  {
    if ls == [] {
      assert AddData(acc, ls) == acc;
    } else {
      var init := ls[..|ls| - 1];
      var line := ls[|ls| - 1];
      FeedData(acc, init, parsers);
      assert AddData(acc, init).state == acc.state;
      DataStep(AddData(acc, init), line, parsers);
      AddDataLast(acc, ls);
    }
  }

  /** An optional section: nothing when it has no lines, otherwise its header
      followed by its data lines. */
  lemma FeedSection(acc: Acc, header: string, s: ParserState, ls: seq<string>, parsers: LocationConfig.ValueParsers)
    requires SectionOf(header) == Some(s) && s != Location
    requires forall k :: 0 <= k < |ls| ==> IsData(ls[k])
    ensures Feed(acc, Section(header, ls), parsers) == Ok(if ls == [] then acc else AddData(acc.(state := s), ls))
  {
    if ls != [] {
      HeadersDisjoint(header);
      FeedAppend(acc, [header], ls, parsers);
      FeedOne(acc, header, parsers);
      FeedData(acc.(state := s), ls, parsers);
    }
  }

  /** The `#Pieces` header followed by the piece lines. */
  lemma FeedPieces(acc: Acc, ls: seq<string>, parsers: LocationConfig.ValueParsers)
    requires forall k :: 0 <= k < |ls| ==> IsData(ls[k])
    ensures Feed(acc, [HEADER_PIECES] + ls, parsers) == Ok(AddData(acc.(state := Pieces), ls))
  {
    HeadersDisjoint(HEADER_PIECES);
    FeedAppend(acc, [HEADER_PIECES], ls, parsers);
    FeedOne(acc, HEADER_PIECES, parsers);
    FeedData(acc.(state := Pieces), ls, parsers);
  }

  /** The three metadata lines the serialiser writes first. */
  lemma FeedMetadataLines(d: Document, parsers: LocationConfig.ValueParsers)
    ensures Feed(START, [HEADER_NAME + OrEmpty(d.name), HEADER_CREATOR + OrEmpty(d.creator),
                         HEADER_DESCRIPTION + Json.Quote(d.description)], parsers)
            == Ok(START.(name := Some(OrEmpty(d.name)), creator := Some(OrEmpty(d.creator)),
                         description := d.description))
  {
    var l0, l1, l2 := HEADER_NAME + OrEmpty(d.name), HEADER_CREATOR + OrEmpty(d.creator),
                      HEADER_DESCRIPTION + Json.Quote(d.description);
    var a1 := START.(name := Some(OrEmpty(d.name)));
    var a2 := a1.(creator := Some(OrEmpty(d.creator)));
    assert StartsWith(l0, HEADER_NAME) && l0[|HEADER_NAME|..] == OrEmpty(d.name);
    FeedOne(START, l0, parsers);
    assert Feed(START, [l0], parsers) == Ok(a1);
    assert StartsWith(l1, HEADER_CREATOR) && l1[|HEADER_CREATOR|..] == OrEmpty(d.creator);
    HeadersDisjoint(l1);
    assert !StartsWith(l1, HEADER_NAME);
    assert [l0, l1][..1] == [l0];
    assert Feed(START, [l0, l1], parsers) == Ok(a2);
    var q := Json.Quote(d.description);
    assert StartsWith(l2, HEADER_DESCRIPTION) && l2[|HEADER_DESCRIPTION|..] == q;
    HeadersDisjoint(l2);
    assert !StartsWith(l2, HEADER_NAME) && !StartsWith(l2, HEADER_CREATOR);
    Json.UnquoteQuote(d.description);
    assert q[..1] == "\"";
    assert DescriptionOf(q) == Ok(d.description);
    assert [l0, l1, l2][..2] == [l0, l1];
  }

  lemma AddPieces(acc: Acc, es: seq<PieceEntry>)
    ensures AddData(acc.(state := Pieces), PieceLines(es)) == acc.(state := Pieces, pieces := acc.pieces + es)
  {
    var ls := PieceLines(es);
    var t := seq(|ls|, i requires 0 <= i < |ls| => PieceEntry(ls[i]));
    assert forall i :: 0 <= i < |es| ==> t[i] == es[i];
    assert t == es;
  }

  lemma AddSnaps(acc: Acc, es: seq<SnapPointEntry>)
    ensures AddData(acc.(state := SnapPoints), SnapLines(es)) == acc.(state := SnapPoints, snaps := acc.snaps + es)
  {
    var ls := SnapLines(es);
    var t := seq(|ls|, i requires 0 <= i < |ls| => SnapPointEntry(ls[i]));
    assert forall i :: 0 <= i < |es| ==> t[i] == es[i];
    assert t == es;
  }

  lemma AddTerrain(acc: Acc, es: seq<TerrainModEntry>)
    ensures AddData(acc.(state := Terrain), TerrainLines(es)) == acc.(state := Terrain, terrain := acc.terrain + es)
  {
    var ls := TerrainLines(es);
    var t := seq(|ls|, i requires 0 <= i < |ls| => TerrainModEntry(ls[i]));
    assert forall i :: 0 <= i < |es| ==> t[i] == es[i];
    assert t == es;
  }

  /** Every entry line of the document is a data line. */
  predicate EntriesAreData(d: Document)
    requires WellFormed(d) && d.pieceEntries.Some?
  {
    && (forall k :: 0 <= k < |d.pieceEntries.value| ==> IsData(d.pieceEntries.value[k].line))
    && (forall k :: 0 <= k < |d.snapPoints.value| ==> IsData(d.snapPoints.value[k].line))
    && (forall k :: 0 <= k < |d.terrainMods.value| ==> IsData(d.terrainMods.value[k].line))
  }

  /** The parser's state after the serialised lines of `d`. */
  lemma FeedSerialized(d: Document, parsers: LocationConfig.ValueParsers)
    requires WellFormed(d) && d.pieceEntries.Some? && EntriesAreData(d)
    ensures Feed(START, Serialize(d).value, parsers) ==
            Ok(Acc(Pieces, Some(OrEmpty(d.name)), Some(OrEmpty(d.creator)), d.description,
                   d.pieceEntries.value, d.snapPoints.value, d.terrainMods.value, map[]))
  {
    var ps, ss, ts := d.pieceEntries.value, d.snapPoints.value, d.terrainMods.value;
    var meta := [HEADER_NAME + OrEmpty(d.name), HEADER_CREATOR + OrEmpty(d.creator),
                 HEADER_DESCRIPTION + Json.Quote(d.description)];
    var sLines := Section(HEADER_SNAP_POINTS, SnapLines(ss));
    var tLines := Section(HEADER_TERRAIN, TerrainLines(ts));
    var pLines := [HEADER_PIECES] + PieceLines(ps);
    assert Serialize(d).value == meta + sLines + tLines + pLines;

    var a1 := START.(name := Some(OrEmpty(d.name)), creator := Some(OrEmpty(d.creator)),
                     description := d.description);
    assert Feed(START, meta, parsers) == Ok(a1) by {
      FeedMetadataLines(d, parsers);
    }
    var a2 := if ss == [] then a1 else a1.(state := SnapPoints, snaps := ss);
    assert Feed(START, meta + sLines, parsers) == Ok(a2) by {
      FeedAppend(START, meta, sLines, parsers);
      FeedSection(a1, HEADER_SNAP_POINTS, SnapPoints, SnapLines(ss), parsers);
      AddSnaps(a1, ss);
      assert a1.snaps + ss == ss;
    }
    var a3 := if ts == [] then a2 else a2.(state := Terrain, terrain := ts);
    assert Feed(START, meta + sLines + tLines, parsers) == Ok(a3) by {
      FeedAppend(START, meta + sLines, tLines, parsers);
      FeedSection(a2, HEADER_TERRAIN, Terrain, TerrainLines(ts), parsers);
      AddTerrain(a2, ts);
      assert a2.terrain + ts == ts;
    }
    assert Feed(START, meta + sLines + tLines + pLines, parsers) == Ok(a3.(state := Pieces, pieces := ps)) by {
      FeedAppend(START, meta + sLines + tLines, pLines, parsers);
      FeedPieces(a3, PieceLines(ps), parsers);
      AddPieces(a3, ps);
      assert a3.pieces + ps == ps;
    }
  }

  /** Parsing what `ToArray` wrote gives back the name (the id when it was
      missing or empty), the creator (empty when it was null), the
      description, and the three entry lists in order, when every entry line
      is a data line. The Location configuration is not written, so it comes
      back empty. */
  lemma ParseSerialize(id: string, d: Document, parsers: LocationConfig.ValueParsers)
    requires WellFormed(d) && d.pieceEntries.Some? && EntriesAreData(d)
    ensures Parse(id, Serialize(d).value, parsers) ==
            Ok(Document(id, if OrEmpty(d.name) == "" then Some(id) else d.name, Some(OrEmpty(d.creator)),
                        d.description, d.pieceEntries, d.snapPoints, d.terrainMods, Some(map[])))
  {
    FeedSerialized(d, parsers);
  }

  /** The optional sections are written exactly when they have entries, the
      Pieces header always, and the Location header never. */
  lemma SerializeSections(d: Document)
    requires WellFormed(d) && d.pieceEntries.Some? && EntriesAreData(d)
    ensures HEADER_SNAP_POINTS in Serialize(d).value <==> d.snapPoints.value != []
    ensures HEADER_TERRAIN in Serialize(d).value <==> d.terrainMods.value != []
    ensures HEADER_PIECES in Serialize(d).value
    ensures HEADER_LOCATION !in Serialize(d).value
  {
    var ps, ss, ts := d.pieceEntries.value, d.snapPoints.value, d.terrainMods.value;
    var meta := [HEADER_NAME + OrEmpty(d.name), HEADER_CREATOR + OrEmpty(d.creator),
                 HEADER_DESCRIPTION + Json.Quote(d.description)];
    var r := Serialize(d).value;
    assert r == meta + Section(HEADER_SNAP_POINTS, SnapLines(ss)) + Section(HEADER_TERRAIN, TerrainLines(ts))
                + [HEADER_PIECES] + PieceLines(ps);
    HeaderNotStored(d, HEADER_SNAP_POINTS);
    HeaderNotStored(d, HEADER_TERRAIN);
    HeaderNotStored(d, HEADER_LOCATION);
  }

  /** A section header other than `#Pieces` is none of the metadata lines and
      none of the stored entry lines. */
  lemma HeaderNotStored(d: Document, h: string)
    requires WellFormed(d) && d.pieceEntries.Some? && EntriesAreData(d)
    requires h == HEADER_SNAP_POINTS || h == HEADER_TERRAIN || h == HEADER_LOCATION
    ensures h !in [HEADER_NAME + OrEmpty(d.name), HEADER_CREATOR + OrEmpty(d.creator),
                   HEADER_DESCRIPTION + Json.Quote(d.description)]
    ensures h !in SnapLines(d.snapPoints.value) && h !in TerrainLines(d.terrainMods.value)
    ensures h !in PieceLines(d.pieceEntries.value)
  {
    var ps, ss, ts := d.pieceEntries.value, d.snapPoints.value, d.terrainMods.value;
    assert h[..1] == "#";
    assert h[1] != 'N' && h[1] != 'C' && h[1] != 'D';
    assert (HEADER_NAME + OrEmpty(d.name))[1] == 'N';
    assert (HEADER_CREATOR + OrEmpty(d.creator))[1] == 'C';
    assert (HEADER_DESCRIPTION + Json.Quote(d.description))[1] == 'D';
    forall k | 0 <= k < |ss| ensures SnapLines(ss)[k] != h {
      assert IsData(ss[k].line);
    }
    forall k | 0 <= k < |ts| ensures TerrainLines(ts)[k] != h {
      assert IsData(ts[k].line);
    }
    forall k | 0 <= k < |ps| ensures PieceLines(ps)[k] != h {
      assert IsData(ps[k].line);
    }
  }

  /** The five lines of a small blueprint location: `#Name:Tower`,
      `#Creator:Bob`, `#Description:"A tower"`, `#Pieces` and one piece. */
  const TOWER_PIECE: string := "wood_beam|0,0,0|0,0,0,1|1,1,1"
  const TOWER_LINES: seq<string> :=
    [HEADER_NAME + "Tower", HEADER_CREATOR + "Bob", HEADER_DESCRIPTION + "\"A tower\"", HEADER_PIECES, TOWER_PIECE]

  /** The document those lines describe, under any id. */
  function TowerDocument(id: string): Document
  {
    Document(id, Some("Tower"), Some("Bob"), "A tower", Some([PieceEntry(TOWER_PIECE)]),
             Some([]), Some([]), Some(map[]))
  }

  lemma TowerDescription()
    ensures Json.Quote("A tower") == "\"A tower\""
  {
    Json.EscapePlain("A tower");
  }

  /** The parts `ToArray` writes for the tower document. */
  lemma TowerSerializeParts(id: string)
    ensures Serialize(TowerDocument(id)).value ==
            [HEADER_NAME + "Tower", HEADER_CREATOR + "Bob", HEADER_DESCRIPTION + Json.Quote("A tower")]
            + [HEADER_PIECES] + [TOWER_PIECE]
  {
    assert Section(HEADER_SNAP_POINTS, SnapLines([])) == [];
    assert Section(HEADER_TERRAIN, TerrainLines([])) == [];
    assert PieceLines([PieceEntry(TOWER_PIECE)]) == [TOWER_PIECE];
  }

  /** Those parts are the five tower lines. */
  lemma TowerPartsAreLines()
    ensures [HEADER_NAME + "Tower", HEADER_CREATOR + "Bob", HEADER_DESCRIPTION + Json.Quote("A tower")]
            + [HEADER_PIECES] + [TOWER_PIECE] == TOWER_LINES
  {
    TowerDescription();
    var r := [HEADER_NAME + "Tower", HEADER_CREATOR + "Bob", HEADER_DESCRIPTION + Json.Quote("A tower")]
             + [HEADER_PIECES] + [TOWER_PIECE];
    assert |r| == |TOWER_LINES| == 5;
    assert r[0] == TOWER_LINES[0] && r[1] == TOWER_LINES[1] && r[2] == TOWER_LINES[2];
    assert r[3] == TOWER_LINES[3] && r[4] == TOWER_LINES[4];
  }

  /** The tower document serialises to its five lines, in that order. */
  lemma TowerSerialize(id: string)
    ensures Serialize(TowerDocument(id)) == Some(TOWER_LINES)
  {
    TowerSerializeParts(id);
    TowerPartsAreLines();
  }

  lemma TowerEntriesAreData(id: string)
    ensures WellFormed(TowerDocument(id)) && TowerDocument(id).pieceEntries.Some?
    ensures EntriesAreData(TowerDocument(id))
  {
    assert TOWER_PIECE[..1] == "w";
  }

  /** The tower lines parse to the tower document, and it serialises back to
      the same five lines. */
  lemma TowerExample(id: string, parsers: LocationConfig.ValueParsers)
    ensures Serialize(TowerDocument(id)) == Some(TOWER_LINES)
    ensures Parse(id, TOWER_LINES, parsers) == Ok(TowerDocument(id))
  {
    TowerSerialize(id);
    TowerEntriesAreData(id);
    ParseSerialize(id, TowerDocument(id), parsers);
  }
}
