/** The `#Location` section: each line assigns one of Jötunn's
    `LocationConfig` options. */
module LocationConfig {
  import opened Common
  import Text

  /** The type an option's value is parsed as. */
  datatype Kind = BiomeKind | BoolKind | IntKind | FloatKind | TextKind

  /** A parsed option value. A biome is the value of the `Heightmap.Biome`
      flags enum; a float is kept as the number it denotes. */
  datatype Value =
    | BiomeValue(biome: int)
    | BoolValue(flag: bool)
    | IntValue(number: int)
    | FloatValue(amount: real)
    | TextValue(text: string)

  /** The option values set so far, by lower-case key. A key that is absent
      keeps `LocationConfig`'s own default. */
  type Config = map<string, Value>

  /** The recognised keys and the kind of value each takes. Some of them are
      stored under misspelt property names (`prioritized` in `Priotized`,
      `forestthresholdmin` in `ForestTresholdMin`, `forestthresholdmax` in
      `ForestTrasholdMax`). */
  const OPTION_KINDS: map<string, Kind> := map[
    "biome" := BiomeKind,
    "prioritized" := BoolKind,
    "quantity" := IntKind,
    "exteriorradius" := FloatKind,
    "centerfirst" := BoolKind,
    "inforest" := BoolKind,
    "forestthresholdmin" := FloatKind,
    "forestthresholdmax" := FloatKind,
    "unique" := BoolKind,
    "minaltitude" := FloatKind,
    "maxaltitude" := FloatKind,
    "maxdistance" := FloatKind,
    "mindistance" := FloatKind,
    "group" := TextKind,
    "mindistancefromsimilar" := FloatKind,
    "minterraindelta" := FloatKind,
    "maxterraindelta" := FloatKind,
    "sloperotation" := BoolKind,
    "randomrotation" := BoolKind,
    "snaptowater" := BoolKind,
    "cleararea" := BoolKind
  ]

  /** The platform parsers the values go through: `Enum.Parse` for the biome,
      `bool.Parse`, `int.Parse`, and `float.Parse` with the invariant culture.
      `None` is the exception each throws on text it rejects. */
  datatype ValueParsers = ValueParsers(
    biome: string -> Option<int>,
    boolean: string -> Option<bool>,
    integer: string -> Option<int>,
    float: string -> Option<real>)

  /** The kind of a parsed value. */
  function KindOf(v: Value): Kind
  {
    match v
    case BiomeValue(_) => BiomeKind
    case BoolValue(_) => BoolKind
    case IntValue(_) => IntKind
    case FloatValue(_) => FloatKind
    case TextValue(_) => TextKind
  }

  /** The option's text parsed as a value of `kind`: always a value of that
      kind, and no value exactly when the platform parser for the kind
      rejects the text (the `group` option takes any text). */
  function ParseValue(kind: Kind, text: string, parsers: ValueParsers): (r: Option<Value>)
    ensures r.Some? ==> KindOf(r.value) == kind
    ensures kind == BiomeKind ==> (r.None? <==> parsers.biome(text).None?)
    ensures kind == BoolKind ==> (r.None? <==> parsers.boolean(text).None?)
    ensures kind == IntKind ==> (r.None? <==> parsers.integer(text).None?)
    ensures kind == FloatKind ==> (r.None? <==> parsers.float(text).None?)
    ensures kind == TextKind ==> r == Some(TextValue(text))
  {
    match kind
    case BiomeKind => (match parsers.biome(text) case Some(b) => Some(BiomeValue(b)) case None => None)
    case BoolKind => (match parsers.boolean(text) case Some(b) => Some(BoolValue(b)) case None => None)
    case IntKind => (match parsers.integer(text) case Some(n) => Some(IntValue(n)) case None => None)
    case FloatKind => (match parsers.float(text) case Some(x) => Some(FloatValue(x)) case None => None)
    case TextKind => Some(TextValue(text))
  }

  /** The option key of a line: the text before its first ':', trimmed and
      lower-cased. */
  function OptionKey(line: string): (r: string)
    requires ':' in line
    ensures ':' !in r && Text.IsLower(r)
    ensures r == [] || (!Text.IsWhiteSpace(r[0]) && !Text.IsWhiteSpace(r[|r| - 1]))
  {
    var t := Text.Trim(line[..Text.IndexOf(line, ':')]);
    Text.TrimOmits(line[..Text.IndexOf(line, ':')], ':');
    Text.LowerOmits(t, ':');
    Text.Lower(t)
  }

  /** The option value of a line: the text between its first ':' and the
      next one (or the end), trimmed. */
  function OptionText(line: string): (r: string)
    requires ':' in line
    ensures ':' !in r
    ensures r == [] || (!Text.IsWhiteSpace(r[0]) && !Text.IsWhiteSpace(r[|r| - 1]))
  {
    var rest := line[Text.IndexOf(line, ':') + 1..];
    var field := if ':' in rest then rest[..Text.IndexOf(rest, ':')] else rest;
    Text.TrimOmits(field, ':');
    Text.Trim(field)
  }

  /** One line of the `#Location` section (the `switch (param)` of the
      parser). A line without ':' fails whatever its key; an unknown key
      leaves the configuration as it was; a known key whose value its parser
      rejects fails; otherwise exactly that key is set. */
  function Assign(config: Config, line: string, parsers: ValueParsers): (r: Result<Config>)
    ensures ':' !in line ==> r == Err(MissingOptionValue(line))
    ensures ':' in line && OptionKey(line) !in OPTION_KINDS ==> r == Ok(config)
    ensures ':' in line && OptionKey(line) in OPTION_KINDS ==>
              match ParseValue(OPTION_KINDS[OptionKey(line)], OptionText(line), parsers)
              case None => r == Err(BadOptionValue(OptionKey(line), OptionText(line)))
              case Some(v) => r == Ok(config[OptionKey(line) := v])
  {
    var fields := Text.Split(line, ':');
    if |fields| < 2 then Err(MissingOptionValue(line))
    else
      Text.SplitFields(line, ':');
      var key := Text.Lower(Text.Trim(fields[0]));
      var text := Text.Trim(fields[1]);
      if key !in OPTION_KINDS then Ok(config)
      else
        match ParseValue(OPTION_KINDS[key], text, parsers)
        case None => Err(BadOptionValue(key, text))
        case Some(v) => Ok(config[key := v])
  }

  /** Every option set is a recognised key holding a value of its kind. */
  predicate Typed(config: Config)
  {
    forall k :: k in config ==> k in OPTION_KINDS && KindOf(config[k]) == OPTION_KINDS[k]
  }

  /** `Assign` keeps the options typed. */
  lemma AssignTyped(config: Config, line: string, parsers: ValueParsers)
    requires Typed(config) && Assign(config, line, parsers).Ok?
    ensures Typed(Assign(config, line, parsers).value)
  {
  }

  /** The lines of the `#Location` section assigned in order, from `config`;
      the first line that fails fails them all. */
  function ApplyAll(config: Config, ls: seq<string>, parsers: ValueParsers): Result<Config>
  {
    if ls == [] then Ok(config)
    else
      match ApplyAll(config, ls[..|ls| - 1], parsers)
      case Err(e) => Err(e)
      case Ok(c) => Assign(c, ls[|ls| - 1], parsers)
  }

  /** Options assigned from typed options stay typed. */
  lemma {:induction false} ApplyAllTyped(config: Config, ls: seq<string>, parsers: ValueParsers)
    requires Typed(config) && ApplyAll(config, ls, parsers).Ok?
    ensures Typed(ApplyAll(config, ls, parsers).value)
  {
    if ls != [] {
      var init := ls[..|ls| - 1];
      ApplyAllTyped(config, init, parsers);
      AssignTyped(ApplyAll(config, init, parsers).value, ls[|ls| - 1], parsers);
    }
  }

  /** Assigning one more line after a run of them. */
  lemma ApplyAllSnoc(config: Config, ls: seq<string>, line: string, parsers: ValueParsers)
    ensures ApplyAll(config, ls + [line], parsers) ==
            match ApplyAll(config, ls, parsers)
            case Err(e) => Err(e)
            case Ok(c) => Assign(c, line, parsers)
  {
    assert (ls + [line])[..|ls|] == ls;
  }
}
