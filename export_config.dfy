/**
 * Export rules `<start?>-<end?>:<regexp>:<format>` that select which maps'
 * entries are published as metrics (pkg/ebpf/maps/entries_export_config.go).
 * The regular-expression engine is a parameter: whether a pattern compiles
 * and whether it matches a name.
 */
module ExportConfig {
  import opened Bytes
  import opened Wrappers
  import opened Decimal
  import opened Strings
  import opened Display

  datatype RegexpEngine = RegexpEngine(compiles: Text -> bool, matches: (Text, Text) -> bool)

  /** A compiled pattern, known by its source text. */
  datatype Regexp = Regexp(source: Text)

  datatype MapExportConfiguration = MapExportConfiguration(
    startID: int, endID: int, metricNameRegexp: Regexp, keyFormat: DisplayFormat)

  datatype ConfigError =
    | InvalidFormat(config: Text)
    | InvalidRange(rangeText: Text)
    | InvalidStartID(rangeText: Text)
    | InvalidEndID(rangeText: Text)
    | InvalidRegexp(pattern: Text)
    | InvalidKeyFormat(format: Text)

  const Colon: byte := ':' as int
  const Dash: byte := '-' as int

  /** A negative bound leaves that side of the ID range open. */
  predicate InRange(c: MapExportConfiguration, id: uint32)
  {
    (c.startID < 0 || id >= c.startID) && (c.endID < 0 || id <= c.endID)
  }

  /** MatchMap: the ID must pass both bounds, then the name must match the pattern. */
  function MatchMap(c: MapExportConfiguration, id: uint32, name: Text, engine: RegexpEngine): (r: bool)
    ensures r <==> InRange(c, id) && engine.matches(c.metricNameRegexp.source, name)
  {
    if c.startID >= 0 && id < c.startID then false
    else if c.endID >= 0 && id > c.endID then false
    else engine.matches(c.metricNameRegexp.source, name)
  }

  /** parseDisplayFormat: the three format names, in any letter case. */
  function ParseDisplayFormat(s: Text): (r: Result<DisplayFormat, ConfigError>)
    ensures r.Ok? <==> ToLower(s) in {DisplayFormatString, DisplayFormatNumber, DisplayFormatHex}
    ensures r.Ok? ==> r.value == ToLower(s)
    ensures r.Err? ==> r.error == InvalidKeyFormat(s)
  {
    var lower := ToLower(s);
    if lower == DisplayFormatString then Ok(DisplayFormatString)
    else if lower == DisplayFormatNumber then Ok(DisplayFormatNumber)
    else if lower == DisplayFormatHex then Ok(DisplayFormatHex)
    else Err(InvalidKeyFormat(s))
  }

  /** One side of an ID range: empty means unbounded (-1). */
  function ParseBound(side: Text): (r: Option<int>)
    ensures side == [] ==> r == Some(-1)
    ensures side != [] ==> (r.Some? <==> Atoi(side).Ok?) && (r.Some? ==> r.value == Atoi(side).value)
    ensures r.Some? && Dash !in side ==> r.value >= -1
  {
    if side == [] then Some(-1)
    else match Atoi(side)
      case Ok(n) => Some(n)
      case Err(_) => None
  }

  /** parseRange: split at the first '-'; each side is empty or an integer. */
  function ParseRange(rangeText: Text): (r: Result<(int, int), ConfigError>)
    ensures Dash !in rangeText ==> r == Err(InvalidRange(rangeText))
    ensures r.Err? ==> (r.error.InvalidRange? || r.error.InvalidStartID? || r.error.InvalidEndID?) &&
                       r.error.rangeText == rangeText
    ensures r.Ok? ==> r.value.0 >= -1
  {
    var parts := SplitFirst(rangeText, Dash);
    if |parts| != 2 then Err(InvalidRange(rangeText))
    else match ParseBound(parts[0])
      case None => Err(InvalidStartID(rangeText))
      case Some(startID) =>
        match ParseBound(parts[1])
        case None => Err(InvalidEndID(rangeText))
        case Some(endID) => Ok((startID, endID))
  }

  /** ParseMapExportConfiguration: range first, format last, the pattern is everything between. */
  function ParseMapExportConfiguration(config: Text, engine: RegexpEngine)
    : (r: Result<MapExportConfiguration, ConfigError>)
    ensures Colon !in config ==> r == Err(InvalidFormat(config))
    ensures r.Ok? ==>
      r.value.startID >= -1 && engine.compiles(r.value.metricNameRegexp.source) &&
      r.value.keyFormat in {DisplayFormatString, DisplayFormatNumber, DisplayFormatHex}
  {
    match CutRule(config)
    case None => Err(InvalidFormat(config))
    case Some(p) => ParseRuleParts(p.rangeText, p.pattern, p.format, engine)
  }

  /** The three texts of a rule: the range, the pattern and the format. */
  datatype RuleText = RuleText(rangeText: Text, pattern: Text, format: Text)

  /** Cutting a rule at ':': the first piece is the range, the last the format, the pattern is the rest. */
  function CutRule(config: Text): (r: Option<RuleText>)
    ensures r.Some? ==> Colon !in r.value.rangeText && Colon !in r.value.format
  {
    var parts := Split(config, Colon);
    if |parts| < 3 then None
    else Some(RuleText(parts[0], Join(parts[1..|parts| - 1], Colon), parts[|parts| - 1]))
  }

  /** The checks on the pieces of a rule, in the source's order: the range, the pattern, the format. */
  function ParseRuleParts(rangeText: Text, pattern: Text, format: Text, engine: RegexpEngine)
    : (r: Result<MapExportConfiguration, ConfigError>)
    ensures ParseRange(rangeText).Err? ==> r == Err(ParseRange(rangeText).error)
    ensures ParseRange(rangeText).Ok? && !engine.compiles(pattern) ==> r == Err(InvalidRegexp(pattern))
    ensures r.Ok? ==> (r.value.startID, r.value.endID) == ParseRange(rangeText).value &&
                      r.value.metricNameRegexp == Regexp(pattern) && r.value.keyFormat == ToLower(format)
  {
    match ParseRange(rangeText)
    case Err(e) => Err(e)
    case Ok((startID, endID)) =>
      if !engine.compiles(pattern) then Err(InvalidRegexp(pattern))
      else match ParseDisplayFormat(format)
        case Err(e) => Err(e)
        case Ok(f) => Ok(MapExportConfiguration(startID, endID, Regexp(pattern), f))
  }

  /** A rule needs two ':' at least, one after the range and one before the format. */
  lemma RuleNeedsTwoColons(config: Text, engine: RegexpEngine)
    requires multiset(config)[Colon] < 2
    ensures ParseMapExportConfiguration(config, engine) == Err(InvalidFormat(config))
  {
    SplitLength(config, Colon);
  }

  /** The format name is read without regard to letter case. */
  lemma ParseDisplayFormatIgnoresCase(s: Text)
    ensures ParseDisplayFormat(s).Ok? <==> ParseDisplayFormat(ToLower(s)).Ok?
    ensures ParseDisplayFormat(s).Ok? ==> ParseDisplayFormat(s) == ParseDisplayFormat(ToLower(s))
  {
    ToLowerIdempotent(s);
  }

  lemma UppercaseHex(s: Text)
    requires s == [0x48, 0x45, 0x58]
    ensures ParseDisplayFormat(s) == Ok(DisplayFormatHex)
  {
    ToLowerAscii(s);
    FormatNameBytes();
    assert ToLower(s) == DisplayFormatHex;
  }

  /**
   * Go lowers U+0130 (LATIN CAPITAL LETTER I WITH DOT ABOVE, bytes C4 B0) to 'i', so "STR", U+0130,
   * "NG" names the string format.
   */
  lemma DottedCapitalIString(head: Text, tail: Text)
    requires head == [0x53, 0x54, 0x52] && tail == [0x4E, 0x47]
    ensures ParseDisplayFormat(head + [0xC4, 0xB0] + tail) == Ok(DisplayFormatString)
  {
    ToLowerDottedCapitalI(head, tail);
    ToLowerAscii(head);
    ToLowerAscii(tail);
    FormatNameBytes();
    assert ToLower(head) + ['i' as int] + ToLower(tail) == DisplayFormatString;
  }

  /** The Kelvin sign U+212A lowers to 'k': it is no format letter, so the name is refused. */
  lemma KelvinSignIsLowered()
    ensures ToLower([0xE2, 0x84, 0xAA]) == Ascii("k")
    ensures ParseDisplayFormat([0xE2, 0x84, 0xAA]) == Err(InvalidKeyFormat([0xE2, 0x84, 0xAA]))
  {
  }

  /** A range without '-' is refused. */
  lemma ParseRangeNeedsDash(rangeText: Text)
    requires Dash !in rangeText
    ensures ParseRange(rangeText) == Err(InvalidRange(rangeText))
  {
  }

  /** Decimal bounds on either side of the first '-' are read back; an empty side is open (-1). */
  lemma ParseRangeOfBounds(m: int, n: int)
    requires 0 <= m <= MaxInt64 && InInt64(n)
    ensures ParseRange(Itoa(m) + [Dash] + Itoa(n)) == Ok((m, n))
    ensures ParseRange(Itoa(m) + [Dash]) == Ok((m, -1))
    ensures ParseRange([Dash] + Itoa(n)) == Ok((-1, n))
    ensures ParseRange([Dash]) == Ok((-1, -1))
  {
    NoDashInDigits(m);
    BoundOfItoa(m);
    BoundOfItoa(n);
    RangeOfSides(Itoa(m), Itoa(n), m, n);
    OpenEnd(Itoa(m), m);
    OpenStart(Itoa(n), n);
    OpenEnd([], -1);
  }

  lemma OpenEnd(startText: Text, startID: int)
    requires Dash !in startText && ParseBound(startText) == Some(startID)
    ensures ParseRange(startText + [Dash]) == Ok((startID, -1))
  {
    RangeOfSides(startText, [], startID, -1);
    assert startText + [Dash] + [] == startText + [Dash];
  }

  lemma OpenStart(endText: Text, endID: int)
    requires ParseBound(endText) == Some(endID)
    ensures ParseRange([Dash] + endText) == Ok((-1, endID))
  {
    RangeOfSides([], endText, -1, endID);
    assert [] + [Dash] + endText == [Dash] + endText;
  }

  lemma BoundOfItoa(n: int)
    requires InInt64(n)
    ensures ParseBound(Itoa(n)) == Some(n)
  {
    AtoiItoa(n);
    if n < 0 { DigitsAreDigits(-n); } else { DigitsAreDigits(n); }
  }

  lemma RangeOfSides(startText: Text, endText: Text, startID: int, endID: int)
    requires Dash !in startText
    requires ParseBound(startText) == Some(startID) && ParseBound(endText) == Some(endID)
    ensures ParseRange(startText + [Dash] + endText) == Ok((startID, endID))
  {
    SplitFirstAt(startText, endText);
  }

  /** A negative start bound cannot be written: the first '-' is taken as the separator. */
  lemma NegativeStartRefused(m: nat, n: nat)
    requires m > 0
    ensures ParseRange([Dash] + Itoa(m) + [Dash] + Itoa(n)) == Err(InvalidEndID([Dash] + Itoa(m) + [Dash] + Itoa(n)))
  {
    var rest := Itoa(m) + [Dash] + Itoa(n);
    SplitFirstAt([], rest);
    assert [Dash] + Itoa(m) + [Dash] + Itoa(n) == [] + [Dash] + rest;
    DigitsAreDigits(m);
    assert IsDigit(rest[0]);
    assert rest[|Itoa(m)|] == Dash && !IsDigit(Dash);
  }

  lemma NoDashInDigits(m: nat)
    ensures Dash !in Itoa(m) && Colon !in Itoa(m)
  {
    DigitsAreDigits(m);
    var d := Digits(m);
    forall i | 0 <= i < |d|
      ensures d[i] != Dash && d[i] != Colon
    {
      assert IsDigit(d[i]);
    }
  }

  lemma SplitFirstAt(head: Text, tail: Text)
    requires Dash !in head
    ensures SplitFirst(head + [Dash] + tail, Dash) == [head, tail]
  {
    var s := head + [Dash] + tail;
    assert s == head + ([Dash] + tail);
    IndexOfPrefix(head, Dash, [Dash] + tail);
    assert s[..|head|] == head;
    assert s[|head| + 1..] == tail;
  }

  /** A rule is refused as malformed exactly when it has fewer than two ':'. */
  lemma ParseInvalidFormat(config: Text, engine: RegexpEngine)
    ensures ParseMapExportConfiguration(config, engine) == Err(InvalidFormat(config))
        <==> multiset(config)[Colon] < 2
  {
    SplitLength(config, Colon);
  }

  /** With two or more ':', the rule is the range, the pattern and the format, joined by ':'. */
  lemma {:induction false} ParseParts(config: Text)
    requires multiset(config)[Colon] >= 2
    ensures var parts := Split(config, Colon);
      |parts| >= 3 && Colon !in parts[0] && Colon !in parts[|parts| - 1] &&
      config == parts[0] + [Colon] + Join(parts[1..|parts| - 1], Colon) + [Colon] + parts[|parts| - 1]
  {
    var parts := Split(config, Colon);
    SplitLength(config, Colon);
    assert |parts| >= 3;
    assert Colon !in parts[0] && Colon !in parts[|parts| - 1];
    JoinSplit(config, Colon);
    JoinOuter(parts, Colon);
    assert config == Join(parts, Colon);
  }

  lemma JoinOuter(parts: seq<Text>, sep: byte)
    requires |parts| >= 3
    ensures Join(parts, sep) == parts[0] + [sep] + Join(parts[1..|parts| - 1], sep) + [sep] + parts[|parts| - 1]
  {
    var init := parts[..|parts| - 1];
    JoinLast(parts, sep);
    assert init[0] == parts[0] && init[1..] == parts[1..|parts| - 1];
    assert Join(init, sep) == parts[0] + [sep] + Join(parts[1..|parts| - 1], sep);
  }

  /**
   * Parsing `<range>:<pattern>:<format>` where the range and the format have no ':' (the pattern may):
   * the range is checked first, then the pattern, then the format.
   */
  lemma ParseRule(rangeText: Text, pattern: Text, format: Text, engine: RegexpEngine)
    requires Colon !in rangeText && Colon !in format
    ensures var r := ParseMapExportConfiguration(rangeText + [Colon] + pattern + [Colon] + format, engine);
      && (ParseRange(rangeText).Err? ==> r == Err(ParseRange(rangeText).error))
      && (ParseRange(rangeText).Ok? && !engine.compiles(pattern) ==> r == Err(InvalidRegexp(pattern)))
      && (ParseRange(rangeText).Ok? && engine.compiles(pattern) && ParseDisplayFormat(format).Err? ==>
            r == Err(InvalidKeyFormat(format)))
      && (r.Ok? <==> ParseRange(rangeText).Ok? && engine.compiles(pattern) && ParseDisplayFormat(format).Ok?)
      && (r.Ok? ==> r.value == MapExportConfiguration(ParseRange(rangeText).value.0, ParseRange(rangeText).value.1,
                                                      Regexp(pattern), ParseDisplayFormat(format).value))
  {
    RuleSteps(rangeText, pattern, format, engine);
  }

  /** A rule's answer in terms of its range, its pattern and its format. */
  lemma RuleSteps(rangeText: Text, pattern: Text, format: Text, engine: RegexpEngine)
    requires Colon !in rangeText && Colon !in format
    ensures ParseMapExportConfiguration(rangeText + [Colon] + pattern + [Colon] + format, engine) ==
      ParseRuleParts(rangeText, pattern, format, engine)
  {
    RulePieces(rangeText, pattern, format);
  }

  /** The pieces ParseMapExportConfiguration cuts a rule into. */
  lemma RulePieces(rangeText: Text, pattern: Text, format: Text)
    requires Colon !in rangeText && Colon !in format
    ensures CutRule(rangeText + [Colon] + pattern + [Colon] + format) == Some(RuleText(rangeText, pattern, format))
  {
    SplitSnoc(rangeText + [Colon] + pattern, Colon, format);
    SplitCons(rangeText, Colon, pattern);
    var middle := Split(pattern, Colon);
    var parts := [rangeText] + middle + [format];
    assert parts[1..|parts| - 1] == middle;
    JoinSplit(pattern, Colon);
  }

  /** `<m>-:<pattern>:hex` exports every map with ID at least m whose name matches. */
  lemma OpenEndedRule(m: int, pattern: Text, engine: RegexpEngine, id: uint32, name: Text)
    requires 0 <= m <= MaxInt64 && engine.compiles(pattern)
    ensures var r := ParseMapExportConfiguration(Itoa(m) + [Dash] + [Colon] + pattern + [Colon] + DisplayFormatHex, engine);
      r.Ok? && r.value.keyFormat == DisplayFormatHex &&
      (MatchMap(r.value, id, name, engine) <==> id >= m && engine.matches(pattern, name))
  {
    NoDashInDigits(m);
    ParseRangeOfBounds(m, 0);
    HexFormat();
    ParseRuleOk(Itoa(m) + [Dash], pattern, DisplayFormatHex, engine, m, -1);
  }

  lemma HexFormat()
    ensures Colon !in DisplayFormatHex && ParseDisplayFormat(DisplayFormatHex) == Ok(DisplayFormatHex)
  {
    FormatNameBytes();
    ToLowerAscii(DisplayFormatHex);
  }

  lemma ParseRuleOk(rangeText: Text, pattern: Text, format: Text, engine: RegexpEngine, startID: int, endID: int)
    requires Colon !in rangeText && Colon !in format
    requires ParseRange(rangeText) == Ok((startID, endID)) && engine.compiles(pattern) && ParseDisplayFormat(format).Ok?
    ensures ParseMapExportConfiguration(rangeText + [Colon] + pattern + [Colon] + format, engine)
         == Ok(MapExportConfiguration(startID, endID, Regexp(pattern), ToLower(format)))
  {
    ParseRule(rangeText, pattern, format, engine);
  }

  /** `-:<pattern>:<format>` exports maps of any ID whose name matches. */
  lemma UnboundedRule(pattern: Text, format: Text, engine: RegexpEngine, id: uint32, name: Text)
    requires Colon !in format && engine.compiles(pattern) && ParseDisplayFormat(format).Ok?
    ensures var r := ParseMapExportConfiguration([Dash] + [Colon] + pattern + [Colon] + format, engine);
      r.Ok? && (MatchMap(r.value, id, name, engine) <==> engine.matches(pattern, name))
  {
    ParseRangeOfBounds(0, 0);
    ParseRule([Dash], pattern, format, engine);
  }
}
