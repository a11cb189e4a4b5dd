/**
 * The code tables of schlib/kicad_defs.py: the single-letter (or empty) codes a
 * `.lib` file uses for pin electrical types, pin directions, pin styles and shape
 * fills, each mapped to a readable description, and the allowed codes as the key
 * set of each map. Each table is also given as a datatype with its code function
 * and a parser, proved to be inverse to each other and to agree with the map.
 */
module KicadDefs {
  import opened Wrappers
  import opened Text

  const PIN_TYPES_MAP: map<string, string> := map[
    "I" := "Input",
    "O" := "Output",
    "B" := "Bidirectional",
    "T" := "Tristate",
    "P" := "Passive",
    "U" := "Unspecified",
    "W" := "Power Input",
    "w" := "Power Output",
    "C" := "Open Collector",
    "E" := "Open Emitter",
    "N" := "No Connect"
  ]

  const PIN_TYPES: set<string> := PIN_TYPES_MAP.Keys

  const PIN_DIRS_MAP: map<string, string> := map[
    "L" := "Left",
    "R" := "Right",
    "U" := "Up",
    "D" := "Down"
  ]

  const PIN_DIRS: set<string> := PIN_DIRS_MAP.Keys

  const PIN_STYLES_MAP: map<string, string> := map[
    "" := "Normal",
    "I" := "Inverted",
    "C" := "Clock",
    "L" := "Input Low",
    "CL" := "Clock Low",
    "V" := "Output Low",
    "F" := "Falling Edge Clock",
    "X" := "Non-logic"
  ]

  const PIN_STYLES: set<string> := PIN_STYLES_MAP.Keys

  const SHAPE_FILLS_MAP: map<string, string> := map[
    "N" := "No Fill",
    "F" := "Foreground",
    "f" := "Background"
  ]

  const SHAPE_FILLS: set<string> := SHAPE_FILLS_MAP.Keys

  /** Pin electrical types. */
  datatype PinType =
    | Input | Output | Bidirectional | Tristate | Passive | Unspecified
    | PowerInput | PowerOutput | OpenCollector | OpenEmitter | NoConnect

  function PinTypeCode(t: PinType): string {
    match t
    case Input => "I"
    case Output => "O"
    case Bidirectional => "B"
    case Tristate => "T"
    case Passive => "P"
    case Unspecified => "U"
    case PowerInput => "W"
    case PowerOutput => "w"
    case OpenCollector => "C"
    case OpenEmitter => "E"
    case NoConnect => "N"
  }

  /** The pin type a code stands for; codes compare case-sensitively. */
  function ParsePinType(code: string): (r: Option<PinType>)
    ensures r.Some? <==> code in PIN_TYPES
    ensures r.Some? ==> PinTypeCode(r.value) == code
  {
    if code == "I" then Some(Input)
    else if code == "O" then Some(Output)
    else if code == "B" then Some(Bidirectional)
    else if code == "T" then Some(Tristate)
    else if code == "P" then Some(Passive)
    else if code == "U" then Some(Unspecified)
    else if code == "W" then Some(PowerInput)
    else if code == "w" then Some(PowerOutput)
    else if code == "C" then Some(OpenCollector)
    else if code == "E" then Some(OpenEmitter)
    else if code == "N" then Some(NoConnect)
    else None
  }

  /** Every pin type has an allowed code, which parses back to it, and its map entry describes it. */
  lemma PinTypeRoundTrip(t: PinType)
    ensures PinTypeCode(t) in PIN_TYPES
    ensures ParsePinType(PinTypeCode(t)) == Some(t)
    ensures PIN_TYPES_MAP[PinTypeCode(t)] ==
              match t
              case Input => "Input"
              case Output => "Output"
              case Bidirectional => "Bidirectional"
              case Tristate => "Tristate"
              case Passive => "Passive"
              case Unspecified => "Unspecified"
              case PowerInput => "Power Input"
              case PowerOutput => "Power Output"
              case OpenCollector => "Open Collector"
              case OpenEmitter => "Open Emitter"
              case NoConnect => "No Connect"
  {
  }

  /** Pin directions. */
  datatype PinDir = Left | Right | Up | Down

  function PinDirCode(d: PinDir): string {
    match d
    case Left => "L"
    case Right => "R"
    case Up => "U"
    case Down => "D"
  }

  function ParsePinDir(code: string): (r: Option<PinDir>)
    ensures r.Some? <==> code in PIN_DIRS
    ensures r.Some? ==> PinDirCode(r.value) == code
  {
    if code == "L" then Some(Left)
    else if code == "R" then Some(Right)
    else if code == "U" then Some(Up)
    else if code == "D" then Some(Down)
    else None
  }

  lemma PinDirRoundTrip(d: PinDir)
    ensures PinDirCode(d) in PIN_DIRS
    ensures ParsePinDir(PinDirCode(d)) == Some(d)
    ensures PIN_DIRS_MAP[PinDirCode(d)] ==
              match d
              case Left => "Left"
              case Right => "Right"
              case Up => "Up"
              case Down => "Down"
  {
  }

  /** Pin graphic styles; the empty code is the normal style. */
  datatype PinStyle = Normal | Inverted | Clock | InputLow | ClockLow | OutputLow | FallingEdgeClock | NonLogic

  function PinStyleCode(s: PinStyle): string {
    match s
    case Normal => ""
    case Inverted => "I"
    case Clock => "C"
    case InputLow => "L"
    case ClockLow => "CL"
    case OutputLow => "V"
    case FallingEdgeClock => "F"
    case NonLogic => "X"
  }

  function ParsePinStyle(code: string): (r: Option<PinStyle>)
    ensures r.Some? <==> code in PIN_STYLES
    ensures r.Some? ==> PinStyleCode(r.value) == code
  {
    if code == "" then Some(Normal)
    else if code == "I" then Some(Inverted)
    else if code == "C" then Some(Clock)
    else if code == "L" then Some(InputLow)
    else if code == "CL" then Some(ClockLow)
    else if code == "V" then Some(OutputLow)
    else if code == "F" then Some(FallingEdgeClock)
    else if code == "X" then Some(NonLogic)
    else None
  }

  lemma PinStyleRoundTrip(s: PinStyle)
    ensures PinStyleCode(s) in PIN_STYLES
    ensures ParsePinStyle(PinStyleCode(s)) == Some(s)
    ensures PIN_STYLES_MAP[PinStyleCode(s)] ==
              match s
              case Normal => "Normal"
              case Inverted => "Inverted"
              case Clock => "Clock"
              case InputLow => "Input Low"
              case ClockLow => "Clock Low"
              case OutputLow => "Output Low"
              case FallingEdgeClock => "Falling Edge Clock"
              case NonLogic => "Non-logic"
  {
  }

  /** Shape fills. */
  datatype Fill = NoFill | Foreground | Background

  function FillCode(f: Fill): string {
    match f
    case NoFill => "N"
    case Foreground => "F"
    case Background => "f"
  }

  function ParseFill(code: string): (r: Option<Fill>)
    ensures r.Some? <==> code in SHAPE_FILLS
    ensures r.Some? ==> FillCode(r.value) == code
  {
    if code == "N" then Some(NoFill)
    else if code == "F" then Some(Foreground)
    else if code == "f" then Some(Background)
    else None
  }

  lemma FillRoundTrip(f: Fill)
    ensures FillCode(f) in SHAPE_FILLS
    ensures ParseFill(FillCode(f)) == Some(f)
    ensures SHAPE_FILLS_MAP[FillCode(f)] ==
              match f
              case NoFill => "No Fill"
              case Foreground => "Foreground"
              case Background => "Background"
  {
  }

  /** In a strictly ascending list every entry is below the last one. */
  lemma {:induction false} BelowLast(codes: seq<string>)
    requires forall i :: 0 <= i < |codes| - 1 ==> Less(codes[i], codes[i + 1])
    ensures forall k :: 0 <= k < |codes| - 1 ==> Less(codes[k], codes[|codes| - 1])
    decreases |codes|
  {
    if |codes| > 1 {
      var n := |codes| - 1;
      BelowLast(codes[..n]);
      forall k | 0 <= k < n ensures Less(codes[k], codes[n]) {
        if k < n - 1 {
          assert codes[..n][k] == codes[k] && codes[..n][n - 1] == codes[n - 1];
          LessTransitive(codes[k], codes[n - 1], codes[n]);
        }
      }
    }
  }

  /** A strictly ascending list of codes has as many distinct codes as entries. */
  lemma {:induction false} AscendingCount(codes: seq<string>)
    requires forall i :: 0 <= i < |codes| - 1 ==> Less(codes[i], codes[i + 1])
    ensures |set x | x in codes| == |codes|
    decreases |codes|
  {
    if codes != [] {
      var n := |codes| - 1;
      AscendingCount(codes[..n]);
      BelowLast(codes);
      assert codes == codes[..n] + [codes[n]];
      assert (set x | x in codes) == (set x | x in codes[..n]) + {codes[n]};
      assert codes[n] !in codes[..n] by {
        forall k | 0 <= k < n ensures codes[..n][k] != codes[n] {
          LessIrreflexive(codes[n]);
        }
      }
    }
  }

  /** The allowed pin types are the keys of their map: exactly 11 codes. */
  lemma PinTypesKeys()
    ensures PIN_TYPES == {"I", "O", "B", "T", "P", "U", "W", "w", "C", "E", "N"}
  {
  }

  lemma PinTypesSize()
    ensures |PIN_TYPES| == 11
  {
    var codes := ["B", "C", "E", "I", "N", "O", "P", "T", "U", "W", "w"];
    AscendingCount(codes);
    PinTypesKeys();
    assert PIN_TYPES == set x | x in codes;
  }

  /** Exactly 4 pin directions. */
  lemma PinDirsKeys()
    ensures PIN_DIRS == {"L", "R", "U", "D"}
  {
  }

  lemma PinDirsSize()
    ensures |PIN_DIRS| == 4
  {
    var codes := ["D", "L", "R", "U"];
    AscendingCount(codes);
    PinDirsKeys();
    assert PIN_DIRS == set x | x in codes;
  }

  /** Exactly 8 pin styles, the empty code among them. */
  lemma PinStylesKeys()
    ensures PIN_STYLES == {"", "I", "C", "L", "CL", "V", "F", "X"}
  {
  }

  lemma PinStylesSize()
    ensures |PIN_STYLES| == 8
  {
    var codes := ["", "C", "CL", "F", "I", "L", "V", "X"];
    assert Less("C", "CL") by {
      assert "C"[1..] == [] && "CL"[1..] == "L";
    }
    AscendingCount(codes);
    PinStylesKeys();
    assert PIN_STYLES == set x | x in codes;
  }

  /** Exactly 3 fill codes. */
  lemma ShapeFillsKeys()
    ensures SHAPE_FILLS == {"N", "F", "f"}
  {
  }

  lemma ShapeFillsSize()
    ensures |SHAPE_FILLS| == 3
  {
    var codes := ["F", "N", "f"];
    AscendingCount(codes);
    ShapeFillsKeys();
    assert SHAPE_FILLS == set x | x in codes;
  }

  /** Codes are case-sensitive: `W`/`w` and `F`/`f` name different values, and other case changes are refused. */
  lemma CaseSensitive()
    ensures ParsePinType("W") == Some(PowerInput) && ParsePinType("w") == Some(PowerOutput)
    ensures ParseFill("F") == Some(Foreground) && ParseFill("f") == Some(Background)
    ensures ParsePinDir("l") == None && ParsePinStyle("cl") == None
  {
  }
}
