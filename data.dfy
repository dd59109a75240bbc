/**
 * The parsed script and its rendering form (`data.rs`). This file declares
 * its own copies of `View`, `FontStyle`, `FontFace`, `EventTrigger` and
 * the event records, with the same shape as those of `types/ssb.rs` up to
 * a field name and an element type: its `Event` calls the macro field
 * `macro_` where `types/ssb.rs` says `macro_name`, and its `EventRender`
 * holds `data.rs`'s own `EventObject` values, which the model leaves out.
 * The model reuses the `types/ssb.rs` datatypes and gives `data.rs` its own
 * decoders, proved to agree with the `TryFrom` ones.
 */
module Data {
  import opened Wrappers
  import opened Numeric
  import opened SsbTypes

  /** `View::from_str`. */
  function ViewFromName(str: string): (r: Option<View>)
    ensures r.Some? <==> str == "perspective" || str == "orthogonal"
    ensures r.Some? ==> ViewName(r.value) == str
  {
    if str == "perspective" then Some(Perspective)
    else if str == "orthogonal" then Some(Orthogonal)
    else None
  }

  /** `FontStyle::from_str`. */
  function FontStyleFromName(str: string): (r: Option<FontStyle>)
    ensures r.Some? <==> str == "regular" || str == "bold" || str == "italic" || str == "bold-italic"
    ensures r.Some? ==> FontStyleName(r.value) == str
  {
    if str == "regular" then Some(Regular)
    else if str == "bold" then Some(Bold)
    else if str == "italic" then Some(Italic)
    else if str == "bold-italic" then Some(BoldItalic)
    else None
  }

  /** The `from_str` decoders of this file and the `TryFrom` decoders of `types/ssb.rs` agree on every string. */
  lemma FromStrAgreesWithTryFrom(str: string)
    ensures ViewFromName(str) == ViewFromStr(str)
    ensures FontStyleFromName(str) == FontStyleFromStr(str)
  {
  }

  /** The decoding fixtures. */
  lemma ConvertFixtures()
    ensures ViewFromName("orthogonal") == Some(Orthogonal)
    ensures FontStyleFromName("bold-italic") == Some(BoldItalic)
  {
  }

  datatype TextureData = Url(url: string) | Raw(raw: string)

  /** The script as parsed: info, target, macros, events and resources. */
  datatype Ssb = Ssb(
    infoTitle: Option<string>,
    infoAuthor: Option<string>,
    infoDescription: Option<string>,
    infoVersion: Option<string>,
    infoCustom: map<string, string>,
    targetWidth: Option<u16>,
    targetHeight: Option<u16>,
    targetDepth: u16,
    targetView: View,
    macros: map<string, string>,
    events: seq<Event>,
    fonts: map<FontFace, string>,
    textures: map<string, TextureData>)

  /** No info, no target size, and no macros, events or resources. */
  predicate IsBlank(ssb: Ssb)
  {
    && ssb.infoTitle.None? && ssb.infoAuthor.None? && ssb.infoDescription.None? && ssb.infoVersion.None?
    && ssb.infoCustom == map[]
    && ssb.targetWidth.None? && ssb.targetHeight.None?
    && ssb.macros == map[] && ssb.events == [] && ssb.fonts == map[] && ssb.textures == map[]
  }

  /** `Ssb::default()`: blank, with depth 1000 and a perspective view. */
  function SsbDefault(): (r: Ssb)
    ensures IsBlank(r)
    ensures r.targetDepth == 1000 && r.targetView == Perspective
  {
    Ssb(None, None, None, None, map[], None, None, 1000, Perspective, map[], [], map[], map[])
  }

  /** The default is the only blank script with that depth and view. */
  lemma SsbDefaultUnique(ssb: Ssb)
    requires IsBlank(ssb) && ssb.targetDepth == 1000 && ssb.targetView == Perspective
    ensures ssb == SsbDefault()
  {
  }

  /** The script prepared for rendering, with fonts and textures as bytes. */
  datatype SsbRender = SsbRender(
    targetWidth: Option<u16>,
    targetHeight: Option<u16>,
    targetDepth: u16,
    targetView: View,
    events: seq<EventRender>,
    fonts: map<FontFace, seq<u8>>,
    textures: map<string, seq<u8>>)
}
