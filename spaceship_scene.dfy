/**
  The scene composer: one interactive object per catalog entry. Each object
  keeps a hover flag set by pointer-over and cleared by pointer-out; the flag
  alone decides the object's scale, material colours and name label. A click
  hands the object's full record to the selection callback.
*/
module Scene {

  import opened Wrappers
  import opened Catalog

  /** Colours of the hover palette and of the resting state. */
  const Highlight: string := "#10b981"
  const HighlightGlow: string := "#059669"
  const EngineHot: string := "#ff4444"
  const EngineHotGlow: string := "#ff0000"
  const EngineIdle: string := "#666666"
  const CockpitTint: string := "#87ceeb"
  const NoGlow: string := "#000000"

  /** The uniform scale factor applied while hovered. */
  const HoverScale: real := 1.2

  datatype Pointer = Over | Out

  /** The material parameters that depend on hover: colour, emissive colour and intensity. */
  datatype Material = Material(color: string, emissive: string, emissiveIntensity: real)

  /** What one frame of an object looks like. */
  datatype Look = Look(
    scale: real,
    body: Material,
    wings: Material,
    cockpit: Material,
    engines: Material,
    nameTag: Option<string>)

  /** The hover flag after one pointer event. */
  function Hover(hovered: bool, e: Pointer): bool
  {
    e == Over
  }

  /** The hover flag after a sequence of pointer events, in order. */
  function HoverAfter(hovered: bool, events: seq<Pointer>): bool
    decreases |events|
  {
    if events == [] then hovered else HoverAfter(Hover(hovered, events[0]), events[1..])
  }

  /** The hover-dependent rendering of a record. */
  function Appearance(ship: SpaceshipRecord, hovered: bool): (look: Look)
    ensures look.scale == (if hovered then ship.scale * HoverScale else ship.scale)
    ensures ship.scale > 0.0 ==> (look.scale > ship.scale <==> hovered)
    ensures hovered ==> look.body.color == look.wings.color == Highlight && look.engines.color == EngineHot
    ensures !hovered ==> look.body.color == look.wings.color == ship.color && look.engines.color == EngineIdle
    ensures !hovered ==> look.body.emissive == look.wings.emissive == look.cockpit.emissive == look.engines.emissive == NoGlow
    ensures look.cockpit.color == CockpitTint
    ensures look.nameTag.Some? <==> hovered
    ensures look.nameTag.Some? ==> look.nameTag.value == ship.name
  {
    Look(
      if hovered then ship.scale * HoverScale else ship.scale,
      Material(if hovered then Highlight else ship.color, if hovered then HighlightGlow else NoGlow, if hovered then 0.3 else 0.0),
      Material(if hovered then Highlight else ship.color, if hovered then HighlightGlow else NoGlow, if hovered then 0.2 else 0.0),
      Material(CockpitTint, if hovered then Highlight else NoGlow, if hovered then 0.1 else 0.0),
      Material(if hovered then EngineHot else EngineIdle, if hovered then EngineHotGlow else NoGlow, if hovered then 0.5 else 0.0),
      if hovered then Some(ship.name) else None)
  }

  /** Hover events are idempotent: repeating the last event changes nothing. */
  lemma HoverIdempotent(hovered: bool, e: Pointer)
    ensures Hover(Hover(hovered, e), e) == Hover(hovered, e)
  {
  }

  /** After any non-empty sequence of pointer events the object is hovered iff the last one was pointer-over. */
  lemma {:induction false} HoverAfterLast(hovered: bool, events: seq<Pointer>)
    ensures HoverAfter(hovered, events) == if events == [] then hovered else events[|events| - 1] == Over
    decreases |events|
  {
    if events != [] {
      HoverAfterLast(Hover(hovered, events[0]), events[1..]);
    }
  }

  /** The highlighted look does not depend on the record's own colour. */
  lemma HighlightIgnoresColour(a: SpaceshipRecord, b: SpaceshipRecord)
    requires a.scale == b.scale && a.name == b.name
    ensures Appearance(a, true) == Appearance(b, true)
  {
  }

  /** Leaving hover restores exactly the resting look, whatever happened before. */
  lemma LeaveRestores(ship: SpaceshipRecord, hovered: bool)
    ensures Appearance(ship, Hover(Hover(hovered, Over), Out)) == Appearance(ship, false)
  {
  }

  /**
    One rendered spaceship. The record is fixed for its lifetime; `spinFrames`
    counts the frames during which the hover spin advanced the yaw.
  */
  class Spaceship {
    const data: SpaceshipRecord
    var hovered: bool
    var spinFrames: nat

    constructor(data: SpaceshipRecord)
      ensures this.data == data && !hovered && spinFrames == 0
    {
      this.data := data;
      hovered := false;
      spinFrames := 0;
    }

    function CurrentLook(): Look
      reads this
    {
      Appearance(data, hovered)
    }

    method PointerOver()
      modifies this
      ensures hovered == Hover(old(hovered), Over) && spinFrames == old(spinFrames)
      ensures CurrentLook() == Appearance(data, true)
    {
      hovered := true;
    }

    method PointerOut()
      modifies this
      ensures hovered == Hover(old(hovered), Out) && spinFrames == old(spinFrames)
      ensures CurrentLook() == Appearance(data, false)
    {
      hovered := false;
    }

    /** One animation frame: the spin advances only while hovered. */
    method Frame()
      modifies this
      ensures hovered == old(hovered)
      ensures spinFrames == old(spinFrames) + (if hovered then 1 else 0)
    {
      if hovered {
        spinFrames := spinFrames + 1;
      }
    }

    /** A click passes the whole record to the selection callback, hovered or not. */
    method Click() returns (selected: SpaceshipRecord)
      ensures selected == data
    {
      selected := data;
    }
  }

  /** The scene: one fresh, unhovered object per catalog entry, in catalog order. */
  method Mount(ships: seq<SpaceshipRecord>) returns (objects: seq<Spaceship>)
    ensures |objects| == |ships|
    ensures forall i :: 0 <= i < |ships| ==> fresh(objects[i]) && objects[i].data == ships[i]
    ensures forall i :: 0 <= i < |ships| ==> !objects[i].hovered && objects[i].spinFrames == 0
    ensures forall i, j :: 0 <= i < j < |objects| ==> objects[i] != objects[j]
  {
    objects := [];
    var k := 0;
    while k < |ships|
      invariant 0 <= k <= |ships| && |objects| == k
      invariant forall i :: 0 <= i < k ==> fresh(objects[i]) && objects[i].data == ships[i]
      invariant forall i :: 0 <= i < k ==> !objects[i].hovered && objects[i].spinFrames == 0
      invariant forall i, j :: 0 <= i < j < k ==> objects[i] != objects[j]
    {
      var ship := new Spaceship(ships[k]);
      objects := objects + [ship];
      k := k + 1;
    }
  }
}
