/**
 * The property enums of event objects and their `TryFrom` decoders
 * (`objects/event_objects.rs`). `types/objects.rs` repeats all nine
 * decoding tables, and `types/tags.rs` repeats six of them (it has no
 * `Blend`, `Target` or `MaskMode`); this module models every copy.
 *
 * Each decoder is paired with the function naming each variant: decoding
 * accepts exactly the names and inverts the naming.
 */
module EventObjects {
  import opened Wrappers
  import opened Numeric

  datatype Point2D = Point2D(x: real, y: real)

  /** One segment of a shape's outline, degrees for the arc angle. */
  datatype ShapeSegment =
    | MoveTo(to: Point2D)
    | LineTo(to: Point2D)
    | CurveTo(control1: Point2D, control2: Point2D, to: Point2D)
    | ArcBy(center: Point2D, angle: real)
    | Close

  // ---------------------------------------------------------------------
  // Numpad: text alignment by keypad digit

  datatype Numpad =
    | TopLeft | TopCenter | TopRight
    | MiddleLeft | MiddleCenter | MiddleRight
    | BottomLeft | BottomCenter | BottomRight

  /** The keypad row of an alignment: 0 at the bottom, 2 at the top. */
  function NumpadRow(n: Numpad): (r: int)
    ensures 0 <= r < 3
  {
    match n
    case BottomLeft | BottomCenter | BottomRight => 0
    case MiddleLeft | MiddleCenter | MiddleRight => 1
    case TopLeft | TopCenter | TopRight => 2
  }

  /** The keypad column of an alignment: 0 on the left, 2 on the right. */
  function NumpadColumn(n: Numpad): (r: int)
    ensures 0 <= r < 3
  {
    match n
    case TopLeft | MiddleLeft | BottomLeft => 0
    case TopCenter | MiddleCenter | BottomCenter => 1
    case TopRight | MiddleRight | BottomRight => 2
  }

  /** `Numpad::try_from(u8)`: the digits 1 to 9, laid out as on a keypad. */
  function NumpadFromByte(value: u8): (r: Option<Numpad>)
    ensures r.Some? <==> 1 <= value <= 9
    ensures r.Some? ==> NumpadRow(r.value) == (value - 1) / 3 && NumpadColumn(r.value) == (value - 1) % 3
  {
    match value
    case 1 => Some(BottomLeft)
    case 2 => Some(BottomCenter)
    case 3 => Some(BottomRight)
    case 4 => Some(MiddleLeft)
    case 5 => Some(MiddleCenter)
    case 6 => Some(MiddleRight)
    case 7 => Some(TopLeft)
    case 8 => Some(TopCenter)
    case 9 => Some(TopRight)
    case _ => None
  }

  /** Row and column determine an alignment. */
  lemma NumpadByPosition(a: Numpad, b: Numpad)
    requires NumpadRow(a) == NumpadRow(b) && NumpadColumn(a) == NumpadColumn(b)
    ensures a == b
  {
  }

  /** The digit for an alignment. */
  function NumpadDigit(n: Numpad): (r: u8)
    ensures 1 <= r <= 9
  {
    3 * NumpadRow(n) + NumpadColumn(n) + 1
  }

  /** The decoder is a bijection from the digits 1 to 9 onto the alignments. */
  lemma NumpadBijection(value: u8, n: Numpad)
    ensures NumpadFromByte(NumpadDigit(n)) == Some(n)
    ensures NumpadFromByte(value) == Some(n) <==> value == NumpadDigit(n)
  {
    var d := NumpadDigit(n);
    NumpadByPosition(NumpadFromByte(d).value, n);
    if NumpadFromByte(value) == Some(n) {
      assert value == 3 * ((value - 1) / 3) + (value - 1) % 3 + 1;
    }
  }

  // ---------------------------------------------------------------------
  // Name tables

  datatype WrapStyle = Space | Character | NoWrap

  function WrapStyleName(w: WrapStyle): string
  {
    match w
    case Space => "space"
    case Character => "character"
    case NoWrap => "nowrap"
  }

  /** `WrapStyle::try_from(&str)`. */
  function WrapStyleFromStr(value: string): (r: Option<WrapStyle>)
    ensures r.Some? ==> WrapStyleName(r.value) == value
    ensures r.None? ==> forall w :: WrapStyleName(w) != value
  {
    if value == "space" then Some(Space)
    else if value == "character" then Some(Character)
    else if value == "nowrap" then Some(NoWrap)
    else None
  }

  datatype Direction = LeftToRight | RightToLeft | TopToBottom | BottomToTop

  function DirectionName(d: Direction): string
  {
    match d
    case LeftToRight => "ltr"
    case RightToLeft => "rtl"
    case TopToBottom => "ttb"
    case BottomToTop => "btt"
  }

  /** `Direction::try_from(&str)`. */
  function DirectionFromStr(value: string): (r: Option<Direction>)
    ensures r.Some? ==> DirectionName(r.value) == value
    ensures r.None? ==> forall d :: DirectionName(d) != value
  {
    if value == "ltr" then Some(LeftToRight)
    else if value == "rtl" then Some(RightToLeft)
    else if value == "ttb" then Some(TopToBottom)
    else if value == "btt" then Some(BottomToTop)
    else None
  }

  datatype Join = Round | Bevel | Miter

  function JoinName(j: Join): string
  {
    match j
    case Round => "round"
    case Bevel => "bevel"
    case Miter => "miter"
  }

  /** `Join::try_from(&str)`. */
  function JoinFromStr(value: string): (r: Option<Join>)
    ensures r.Some? ==> JoinName(r.value) == value
    ensures r.None? ==> forall j :: JoinName(j) != value
  {
    if value == "round" then Some(Join.Round)
    else if value == "bevel" then Some(Bevel)
    else if value == "miter" then Some(Miter)
    else None
  }

  datatype Cap = Round | Butt | Square

  function CapName(c: Cap): string
  {
    match c
    case Round => "round"
    case Butt => "butt"
    case Square => "square"
  }

  /** `Cap::try_from(&str)`. */
  function CapFromStr(value: string): (r: Option<Cap>)
    ensures r.Some? ==> CapName(r.value) == value
    ensures r.None? ==> forall c :: CapName(c) != value
  {
    if value == "round" then Some(Cap.Round)
    else if value == "butt" then Some(Butt)
    else if value == "square" then Some(Square)
    else None
  }

  datatype TextureWrapping = Pad | Clamp | Repeat | Mirror

  /** The texture fill of `types/objects.rs` and `types/tags.rs`; a variant's fields in `event_objects.rs`. */
  datatype TexFill = TexFill(x0: real, y0: real, x1: real, y1: real, wrap: TextureWrapping)

  function TextureWrappingName(t: TextureWrapping): string
  {
    match t
    case Pad => "pad"
    case Clamp => "clamp"
    case Repeat => "repeat"
    case Mirror => "mirror"
  }

  /** `TextureWrapping::try_from(&str)`. */
  function TextureWrappingFromStr(value: string): (r: Option<TextureWrapping>)
    ensures r.Some? ==> TextureWrappingName(r.value) == value
    ensures r.None? ==> forall t :: TextureWrappingName(t) != value
  {
    if value == "pad" then Some(Pad)
    else if value == "clamp" then Some(Clamp)
    else if value == "repeat" then Some(Repeat)
    else if value == "mirror" then Some(Mirror)
    else None
  }

  datatype Blend = Add | Subtract | Multiply | Invert | Difference | Screen

  function BlendName(b: Blend): string
  {
    match b
    case Add => "add"
    case Subtract => "subtract"
    case Multiply => "multiply"
    case Invert => "invert"
    case Difference => "difference"
    case Screen => "screen"
  }

  /** `Blend::try_from(&str)`. */
  function BlendFromStr(value: string): (r: Option<Blend>)
    ensures r.Some? ==> BlendName(r.value) == value
    ensures r.None? ==> forall b :: BlendName(b) != value
  {
    if value == "add" then Some(Add)
    else if value == "subtract" then Some(Subtract)
    else if value == "multiply" then Some(Multiply)
    else if value == "invert" then Some(Blend.Invert)
    else if value == "difference" then Some(Difference)
    else if value == "screen" then Some(Screen)
    else None
  }

  datatype Target = Frame | Mask

  function TargetName(t: Target): string
  {
    match t
    case Frame => "frame"
    case Mask => "mask"
  }

  /** `Target::try_from(&str)`. */
  function TargetFromStr(value: string): (r: Option<Target>)
    ensures r.Some? ==> TargetName(r.value) == value
    ensures r.None? ==> forall t :: TargetName(t) != value
  {
    if value == "frame" then Some(Frame)
    else if value == "mask" then Some(Mask)
    else None
  }

  datatype MaskMode = Normal | Invert

  function MaskModeName(m: MaskMode): string
  {
    match m
    case Normal => "normal"
    case Invert => "invert"
  }

  /** `MaskMode::try_from(&str)`. */
  function MaskModeFromStr(value: string): (r: Option<MaskMode>)
    ensures r.Some? ==> MaskModeName(r.value) == value
    ensures r.None? ==> forall m :: MaskModeName(m) != value
  {
    if value == "normal" then Some(Normal)
    else if value == "invert" then Some(MaskMode.Invert)
    else None
  }

  // ---------------------------------------------------------------------
  // Properties of the decoders

  /** Every variant's name decodes back to it. */
  lemma NamesDecode(w: WrapStyle, d: Direction, j: Join, c: Cap, t: TextureWrapping, b: Blend, g: Target, m: MaskMode)
    ensures WrapStyleFromStr(WrapStyleName(w)) == Some(w)
    ensures DirectionFromStr(DirectionName(d)) == Some(d)
    ensures JoinFromStr(JoinName(j)) == Some(j)
    ensures CapFromStr(CapName(c)) == Some(c)
    ensures TextureWrappingFromStr(TextureWrappingName(t)) == Some(t)
    ensures BlendFromStr(BlendName(b)) == Some(b)
    ensures TargetFromStr(TargetName(g)) == Some(g)
    ensures MaskModeFromStr(MaskModeName(m)) == Some(m)
  {
  }

  /** The accepted strings, listed. */
  lemma AcceptedNames(s: string)
    ensures WrapStyleFromStr(s).Some? <==> s in ["space", "character", "nowrap"]
    ensures DirectionFromStr(s).Some? <==> s in ["ltr", "rtl", "ttb", "btt"]
    ensures JoinFromStr(s).Some? <==> s in ["round", "bevel", "miter"]
    ensures CapFromStr(s).Some? <==> s in ["round", "butt", "square"]
    ensures TextureWrappingFromStr(s).Some? <==> s in ["pad", "clamp", "repeat", "mirror"]
    ensures BlendFromStr(s).Some? <==> s in ["add", "subtract", "multiply", "invert", "difference", "screen"]
    ensures TargetFromStr(s).Some? <==> s in ["frame", "mask"]
    ensures MaskModeFromStr(s).Some? <==> s in ["normal", "invert"]
  {
  }

  /** Distinct accepted strings decode to distinct variants. */
  lemma DecodersInjective(s: string, t: string)
    requires s != t
    ensures WrapStyleFromStr(s).Some? ==> WrapStyleFromStr(s) != WrapStyleFromStr(t)
    ensures DirectionFromStr(s).Some? ==> DirectionFromStr(s) != DirectionFromStr(t)
    ensures JoinFromStr(s).Some? ==> JoinFromStr(s) != JoinFromStr(t)
    ensures CapFromStr(s).Some? ==> CapFromStr(s) != CapFromStr(t)
    ensures TextureWrappingFromStr(s).Some? ==> TextureWrappingFromStr(s) != TextureWrappingFromStr(t)
    ensures BlendFromStr(s).Some? ==> BlendFromStr(s) != BlendFromStr(t)
    ensures TargetFromStr(s).Some? ==> TargetFromStr(s) != TargetFromStr(t)
    ensures MaskModeFromStr(s).Some? ==> MaskModeFromStr(s) != MaskModeFromStr(t)
  {
  }

  /** The decoding fixtures: all nine of `event_objects.rs` and `types/objects.rs`, of which `types/tags.rs` asserts the first six. */
  lemma ConvertFixtures()
    ensures NumpadFromByte(7) == Some(TopLeft)
    ensures WrapStyleFromStr("character") == Some(Character)
    ensures DirectionFromStr("ttb") == Some(TopToBottom)
    ensures JoinFromStr("bevel") == Some(Bevel)
    ensures CapFromStr("butt") == Some(Butt)
    ensures TextureWrappingFromStr("mirror") == Some(Mirror)
    ensures BlendFromStr("invert") == Some(Blend.Invert)
    ensures TargetFromStr("mask") == Some(Mask)
    ensures MaskModeFromStr("invert") == Some(MaskMode.Invert)
  {
  }
}
