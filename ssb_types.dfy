/**
 * The script's top-level value types (`types/ssb.rs`): event triggers, the
 * 3D view, and font faces with their display form.
 */
module SsbTypes {
  import opened Wrappers
  import opened Numeric

  /** What starts an event: an explicit id, or a time span in milliseconds. */
  datatype EventTrigger = Id(id: string) | Time(start: u32, end: u32)

  /** An event as read from the script; `dataLocation` is the pair of positions the source records for its data. */
  datatype Event = Event(trigger: EventTrigger, macroName: Option<string>, note: Option<string>, data: string, dataLocation: (nat, nat))

  /** An event prepared for rendering; its objects are not part of this model. */
  datatype EventRender = EventRender(trigger: EventTrigger)

  datatype View = Perspective | Orthogonal

  function ViewName(v: View): string
  {
    match v
    case Perspective => "perspective"
    case Orthogonal => "orthogonal"
  }

  /** `View::try_from(&str)`. */
  function ViewFromStr(value: string): (r: Option<View>)
    ensures r.Some? ==> ViewName(r.value) == value
    ensures r.None? ==> forall v :: ViewName(v) != value
  {
    if value == "perspective" then Some(Perspective)
    else if value == "orthogonal" then Some(Orthogonal)
    else None
  }

  datatype FontStyle = Regular | Bold | Italic | BoldItalic

  /** The script's name for a font style. */
  function FontStyleName(s: FontStyle): string
  {
    match s
    case Regular => "regular"
    case Bold => "bold"
    case Italic => "italic"
    case BoldItalic => "bold-italic"
  }

  /** `FontStyle::try_from(&str)`. */
  function FontStyleFromStr(value: string): (r: Option<FontStyle>)
    ensures r.Some? ==> FontStyleName(r.value) == value
    ensures r.None? ==> forall s :: FontStyleName(s) != value
  {
    if value == "regular" then Some(Regular)
    else if value == "bold" then Some(Bold)
    else if value == "italic" then Some(Italic)
    else if value == "bold-italic" then Some(BoldItalic)
    else None
  }

  /** The `Debug` form of a font style: its variant name. */
  function FontStyleDebug(s: FontStyle): (r: string)
    ensures '(' !in r && |r| > 0
  {
    match s
    case Regular => "Regular"
    case Bold => "Bold"
    case Italic => "Italic"
    case BoldItalic => "BoldItalic"
  }

  /** Reads a variant name back. */
  function FontStyleFromDebug(name: string): (r: Option<FontStyle>)
    ensures r.Some? ==> FontStyleDebug(r.value) == name
    ensures r.None? ==> forall s :: FontStyleDebug(s) != name
  {
    if name == "Regular" then Some(Regular)
    else if name == "Bold" then Some(Bold)
    else if name == "Italic" then Some(Italic)
    else if name == "BoldItalic" then Some(BoldItalic)
    else None
  }

  datatype FontFace = FontFace(family: string, style: FontStyle)

  /** `FontFace`'s `Display`: the family, then the style's variant name in parentheses. */
  function FontFaceDisplay(f: FontFace): (r: string)
    ensures |r| == |f.family| + |FontStyleDebug(f.style)| + 3
  {
    f.family + " (" + FontStyleDebug(f.style) + ")"
  }

  /** The position of the last `c` in `s`, or -1. */
  function LastIndexOf(s: string, c: char): (r: int)
    ensures -1 <= r < |s|
    ensures r >= 0 ==> s[r] == c
    ensures forall k :: r < k < |s| ==> s[k] != c
  {
    if |s| == 0 then -1
    else if s[|s| - 1] == c then |s| - 1
    else LastIndexOf(s[..|s| - 1], c)
  }

  /**
   * Reads a displayed font face back: the style is what stands between the
   * last opening parenthesis and the closing one at the end, the family is
   * everything before the space in front of it.
   */
  function ParseFontFace(s: string): (r: Option<FontFace>)
    ensures r.Some? ==> FontFaceDisplay(r.value) == s
  {
    if |s| == 0 || s[|s| - 1] != ')' then None
    else
      var body := s[..|s| - 1];
      var i := LastIndexOf(body, '(');
      if i < 1 || body[i - 1] != ' ' then None
      else
        match FontStyleFromDebug(body[i + 1..])
        case None => None
        case Some(style) =>
          assert body == body[..i - 1] + " (" + body[i + 1..];
          Some(FontFace(body[..i - 1], style))
  }

  /** The position of a character that occurs last is found whatever precedes it. */
  lemma LastIndexOfSplit(a: string, c: char, b: string)
    requires c !in b
    ensures LastIndexOf(a + [c] + b, c) == |a|
  {
    var s := a + [c] + b;
    var r := LastIndexOf(s, c);
    assert s[|a|] == c;
  }

  /** Displaying a font face loses nothing: the display parses back to the face. */
  lemma FontFaceDisplayParses(f: FontFace)
    ensures ParseFontFace(FontFaceDisplay(f)) == Some(f)
  {
    var name := FontStyleDebug(f.style);
    var s := FontFaceDisplay(f);
    var body := s[..|s| - 1];
    assert s[|s| - 1] == ')';
    assert body == (f.family + [' ']) + ['('] + name;
    LastIndexOfSplit(f.family + [' '], '(', name);
    var i := |f.family| + 1;
    assert body[i - 1] == ' ';
    assert body[i + 1..] == name;
    assert body[..i - 1] == f.family;
    DebugDecodes(f.style);
  }

  lemma DebugDecodes(style: FontStyle)
    ensures FontStyleFromDebug(FontStyleDebug(style)) == Some(style)
  {
  }

  /** Two faces display alike only if they are the same face. */
  lemma FontFaceDisplayInjective(f: FontFace, g: FontFace)
    requires FontFaceDisplay(f) == FontFaceDisplay(g)
    ensures f == g
  {
    FontFaceDisplayParses(f);
    FontFaceDisplayParses(g);
  }

  /** The names decode back, nothing else decodes, and the fixtures decode as listed. */
  lemma ConvertFixtures(v: View, s: FontStyle, value: string)
    ensures ViewFromStr(ViewName(v)) == Some(v) && FontStyleFromStr(FontStyleName(s)) == Some(s)
    ensures ViewFromStr(value).Some? <==> value in ["perspective", "orthogonal"]
    ensures FontStyleFromStr(value).Some? <==> value in ["regular", "bold", "italic", "bold-italic"]
    ensures ViewFromStr("orthogonal") == Some(Orthogonal) && ViewFromStr("perspective") == Some(Perspective)
    ensures ViewFromStr("fuzzy") == None
    ensures FontStyleFromStr("regular") == Some(Regular) && FontStyleFromStr("bold") == Some(Bold)
    ensures FontStyleFromStr("italic") == Some(Italic) && FontStyleFromStr("bold-italic") == Some(BoldItalic)
    ensures FontStyleFromStr("ultra-bold") == None
  {
  }
}
