/**
 * The `Parallax` background component and its builder. A parallax has an
 * offset, a speed multiplier, an optional entity to follow and the anchor
 * point on that entity. The `f32` vector components are only stored and
 * appear here as `real`; entity ids (`Index`, a `u32`) as `nat`.
 */
module Parallaxes {
  import opened Wrappers

  datatype Vector = Vector(x: real, y: real)

  /** The anchor points of the geometry module; only `Middle` matters
      here, the others are told apart by number. */
  datatype Anchor = Middle | OtherAnchor(id: nat)

  datatype Parallax = Parallax(offset: Vector, speedMult: Vector, follow: Option<nat>, followAnchor: Anchor)

  datatype ParallaxBuilder = ParallaxBuilder(offset: Vector, speedMult: Vector, follow: Option<nat>, followAnchor: Anchor)

  /** `Parallax::default()`: no offset, half speed, following nothing,
      anchored at the middle. */
  function DefaultParallax(): (p: Parallax)
    ensures p.offset == Vector(0.0, 0.0) && p.speedMult == Vector(0.5, 0.5)
    ensures p.follow == None && p.followAnchor == Middle
  {
    Parallax(Vector(0.0, 0.0), Vector(0.5, 0.5), None, Middle)
  }

  /** `ParallaxBuilder::default()`: the fields of the default parallax. */
  function DefaultBuilder(): (b: ParallaxBuilder)
    ensures b.offset == DefaultParallax().offset && b.speedMult == DefaultParallax().speedMult
    ensures b.follow == DefaultParallax().follow && b.followAnchor == DefaultParallax().followAnchor
  {
    var p := DefaultParallax();
    ParallaxBuilder(p.offset, p.speedMult, p.follow, p.followAnchor)
  }

  /** `Parallax::new()`: a builder with the default fields. */
  function NewParallax(): (b: ParallaxBuilder)
    ensures b == DefaultBuilder()
  {
    DefaultBuilder()
  }

  function SetOffset(b: ParallaxBuilder, offset: Vector): (r: ParallaxBuilder)
    ensures r.offset == offset
    ensures r.speedMult == b.speedMult && r.follow == b.follow && r.followAnchor == b.followAnchor
  {
    b.(offset := offset)
  }

  /** Any multiplier is accepted; the range from 0.0 to 1.0 is advice only. */
  function SetSpeedMult(b: ParallaxBuilder, speedMult: Vector): (r: ParallaxBuilder)
    ensures r.speedMult == speedMult
    ensures r.offset == b.offset && r.follow == b.follow && r.followAnchor == b.followAnchor
  {
    b.(speedMult := speedMult)
  }

  /** `follow`: the given entity is followed from now on. */
  function SetFollow(b: ParallaxBuilder, entity: nat): (r: ParallaxBuilder)
    ensures r.follow == Some(entity)
    ensures r.offset == b.offset && r.speedMult == b.speedMult && r.followAnchor == b.followAnchor
  {
    b.(follow := Some(entity))
  }

  function SetFollowAnchor(b: ParallaxBuilder, anchor: Anchor): (r: ParallaxBuilder)
    ensures r.followAnchor == anchor
    ensures r.offset == b.offset && r.speedMult == b.speedMult && r.follow == b.follow
  {
    b.(followAnchor := anchor)
  }

  /** `build`: every field carried over unchanged. */
  function Build(b: ParallaxBuilder): (p: Parallax)
    ensures p.offset == b.offset && p.speedMult == b.speedMult
    ensures p.follow == b.follow && p.followAnchor == b.followAnchor
  {
    Parallax(b.offset, b.speedMult, b.follow, b.followAnchor)
  }

  /** Building the default builder gives the default parallax. */
  lemma DefaultBuildsDefault()
    ensures Build(NewParallax()) == DefaultParallax()
  {
  }

  /** Calling a setter twice keeps the second value. */
  lemma SettersLastWriteWins(b: ParallaxBuilder, v: Vector, w: Vector, e: nat, f: nat, a: Anchor, c: Anchor)
    ensures SetOffset(SetOffset(b, v), w) == SetOffset(b, w)
    ensures SetSpeedMult(SetSpeedMult(b, v), w) == SetSpeedMult(b, w)
    ensures SetFollow(SetFollow(b, e), f) == SetFollow(b, f)
    ensures SetFollowAnchor(SetFollowAnchor(b, a), c) == SetFollowAnchor(b, c)
  {
  }

  /** Setters of different fields may be called in either order. */
  lemma SettersCommute(b: ParallaxBuilder, v: Vector, w: Vector, e: nat, a: Anchor)
    ensures SetOffset(SetSpeedMult(b, w), v) == SetSpeedMult(SetOffset(b, v), w)
    ensures SetFollow(SetFollowAnchor(b, a), e) == SetFollowAnchor(SetFollow(b, e), a)
    ensures SetOffset(SetFollow(b, e), v) == SetFollow(SetOffset(b, v), e)
  {
  }

  /** A built parallax holds exactly what was set, over the defaults, with
      no range check on the multiplier. */
  lemma BuildAfterSetters(v: Vector, w: Vector, e: nat, a: Anchor)
    ensures Build(SetFollowAnchor(SetFollow(SetSpeedMult(SetOffset(NewParallax(), v), w), e), a))
      == Parallax(v, w, Some(e), a)
    ensures Build(SetFollow(NewParallax(), e)) == DefaultParallax().(follow := Some(e))
  {
  }
}
