/**
 * The parser's state enums (`utils/state.rs`): the section a line belongs
 * to, the mode in which event data is read, and the kind of the shape
 * segment being read.
 */
module State {
  import opened Wrappers

  datatype Section = Info | Target | Macros | Events | Resources

  /** The header line that opens a section. */
  function SectionHeader(s: Section): string
  {
    match s
    case Info => "#INFO"
    case Target => "#TARGET"
    case Macros => "#MACROS"
    case Events => "#EVENTS"
    case Resources => "#RESOURCES"
  }

  /** `Section::try_from(&str)`: exactly the five headers. */
  function SectionFromStr(value: string): (r: Option<Section>)
    ensures r.Some? ==> SectionHeader(r.value) == value
    ensures r.None? ==> forall s :: SectionHeader(s) != value
  {
    if value == "#INFO" then Some(Info)
    else if value == "#TARGET" then Some(Target)
    else if value == "#MACROS" then Some(Macros)
    else if value == "#EVENTS" then Some(Events)
    else if value == "#RESOURCES" then Some(Resources)
    else None
  }

  datatype Mode = Text | Points | Shape

  function ModeName(m: Mode): string
  {
    match m
    case Text => "text"
    case Points => "points"
    case Shape => "shape"
  }

  /** `Mode::try_from(&str)`: exactly the three mode names. */
  function ModeFromStr(value: string): (r: Option<Mode>)
    ensures r.Some? ==> ModeName(r.value) == value
    ensures r.None? ==> forall m :: ModeName(m) != value
  {
    if value == "text" then Some(Text)
    else if value == "points" then Some(Points)
    else if value == "shape" then Some(Shape)
    else None
  }

  /** `Mode::default()`: the mode named "text". */
  function ModeDefault(): (r: Mode)
    ensures ModeFromStr("text") == Some(r)
  {
    Text
  }

  datatype ShapeSegmentType = Move | Line | Curve | Arc

  /** `ShapeSegmentType::default()`: a shape starts with a move. */
  function ShapeSegmentTypeDefault(): (r: ShapeSegmentType)
    ensures r.Move?
  {
    Move
  }

  /** Headers and names decode back to their variants, and nothing else decodes. */
  lemma StateNamesDecode(s: Section, m: Mode, value: string)
    ensures SectionFromStr(SectionHeader(s)) == Some(s)
    ensures ModeFromStr(ModeName(m)) == Some(m)
    ensures SectionFromStr(value).Some? <==> value in ["#INFO", "#TARGET", "#MACROS", "#EVENTS", "#RESOURCES"]
    ensures ModeFromStr(value).Some? <==> value in ["text", "points", "shape"]
  {
  }

  /** The decoding fixtures: a header missing its last letter and an unknown mode are refused. */
  lemma StateFixtures()
    ensures SectionFromStr("#EVENTS") == Some(Events)
    ensures SectionFromStr("#EVENT") == None
    ensures ModeFromStr("shape") == Some(Shape)
    ensures ModeFromStr("lines") == None
  {
  }
}
