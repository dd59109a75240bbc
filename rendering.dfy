/**
 * The renderer's entry point (`rendering.rs`): the events whose trigger
 * matches the render trigger are found, and while the drawing itself is
 * still to be written, a match fills the whole image with white opaque
 * pixels.
 *
 * The image is its width, its height and its pixel words, an `array<u32>`
 * updated in place.
 */
module Rendering {
  import opened Numeric
  import opened SsbTypes
  import opened Data

  /** What the caller asks to render: the events of an id, or those at a time in milliseconds. */
  datatype RenderTrigger = Id(id: string) | Time(time: u32)

  /** The trigger `match`: ids by equality, times by the half-open span `[start, end)`. */
  predicate Matches(event: EventTrigger, trigger: RenderTrigger)
  {
    match (event, trigger)
    case (Id(eventId), Id(renderId)) => eventId == renderId
    case (Time(startMs, endMs), Time(currentMs)) => startMs <= currentMs < endMs
    case _ => false
  }

  /** Whether any of the events matches. */
  function AnyMatch(events: seq<EventRender>, trigger: RenderTrigger): (r: bool)
    ensures r <==> exists i :: 0 <= i < |events| && Matches(events[i].trigger, trigger)
  {
    if |events| == 0 then false
    else AnyMatch(events[..|events| - 1], trigger) || Matches(events[|events| - 1].trigger, trigger)
  }

  /** The pixel words after rendering. */
  function Rendered(events: seq<EventRender>, trigger: RenderTrigger, pixels: seq<u32>): (r: seq<u32>)
    ensures |r| == |pixels|
    ensures AnyMatch(events, trigger) ==> forall i :: 0 <= i < |r| ==> r[i] == U32_MAX
    ensures !AnyMatch(events, trigger) ==> r == pixels
  {
    if AnyMatch(events, trigger) then seq(|pixels|, _ => U32_MAX) else pixels
  }

  /** A time span never matches when it is empty or reversed, and the two kinds of trigger never match each other. */
  lemma MatchRules(event: EventTrigger, trigger: RenderTrigger)
    ensures event.Time? && event.start >= event.end ==> !Matches(event, trigger)
    ensures event.Id? != trigger.Id? ==> !Matches(event, trigger)
    ensures event.Time? && trigger.Time? ==>
      (Matches(event, trigger) <==> event.start <= trigger.time && trigger.time < event.end)
    ensures event.Id? && trigger.Id? ==> (Matches(event, trigger) <==> event.id == trigger.id)
  {
  }

  /** Rendering twice is rendering once. */
  lemma RenderedIdempotent(events: seq<EventRender>, trigger: RenderTrigger, pixels: seq<u32>)
    ensures Rendered(events, trigger, Rendered(events, trigger, pixels)) == Rendered(events, trigger, pixels)
  {
  }

  /** How many events match does not matter, nor in which order they come: only whether one does. */
  lemma RenderedDependsOnMatchAlone(events: seq<EventRender>, others: seq<EventRender>, trigger: RenderTrigger, pixels: seq<u32>)
    requires multiset(events) == multiset(others) || (AnyMatch(events, trigger) && AnyMatch(others, trigger))
    ensures Rendered(events, trigger, pixels) == Rendered(others, trigger, pixels)
  {
    if multiset(events) == multiset(others) {
      SameEventsSameMatch(events, others, trigger);
    }
  }

  lemma SameEventsSameMatch(events: seq<EventRender>, others: seq<EventRender>, trigger: RenderTrigger)
    requires multiset(events) == multiset(others)
    ensures AnyMatch(events, trigger) == AnyMatch(others, trigger)
  {
    if AnyMatch(events, trigger) {
      var i :| 0 <= i < |events| && Matches(events[i].trigger, trigger);
      assert events[i] in multiset(others);
      var j :| 0 <= j < |others| && others[j] == events[i];
    }
    if AnyMatch(others, trigger) {
      var j :| 0 <= j < |others| && Matches(others[j].trigger, trigger);
      assert others[j] in multiset(events);
      var i :| 0 <= i < |events| && events[i] == others[j];
    }
  }

  /** `SsbRenderer`: the prepared script an image is rendered from. */
  class SsbRenderer {
    const data: SsbRender

    /** `SsbRenderer::new`. */
    constructor (data: SsbRender)
      ensures this.data == data
    {
      this.data := data;
    }

    /**
     * `render`: checks every event against the trigger and overwrites every
     * pixel word with `u32::MAX` on each match; the image keeps its size.
     */
    method Render(width: u32, height: u32, buffer: array<u32>, trigger: RenderTrigger)
      returns (outWidth: u32, outHeight: u32)
      modifies buffer
      ensures outWidth == width && outHeight == height
      ensures buffer[..] == Rendered(data.events, trigger, old(buffer[..]))
    {
      var events := data.events;
      for e := 0 to |events|
        invariant buffer[..] == Rendered(events[..e], trigger, old(buffer[..]))
      {
        assert events[..e + 1][..e] == events[..e];
        if Matches(events[e].trigger, trigger) {
          FillMax(buffer);
        }
      }
      assert events[..|events|] == events;
      return width, height;
    }
  }

  /** The fill loop: every pixel word becomes `u32::MAX`. */
  method FillMax(buffer: array<u32>)
    modifies buffer
    ensures forall i :: 0 <= i < buffer.Length ==> buffer[i] == U32_MAX
  {
    for i := 0 to buffer.Length
      invariant forall k :: 0 <= k < i ==> buffer[k] == U32_MAX
    {
      buffer[i] := U32_MAX;
    }
  }
}
