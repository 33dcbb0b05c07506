/**
 * `ActionButton`: a glass button with a hover/press state machine. Each frame it bobs,
 * eases its scale toward 0.9 (pressed), 1.08 (hovered) or 1, and eases its glow toward
 * 0.6 while hovered; releasing the pointer on it opens its link in a new tab at once.
 */
module ActionButton {
  import opened Vectors
  import opened Smoothing
  import opened Host

  const ScaleFactor: real := 0.16
  const GlowFactor: real := 0.18

  /** The uniform scale the button heads for: pressed takes priority over hovered. */
  function TargetScale(pressed: bool, hovered: bool): real
  {
    if pressed then 0.9 else if hovered then 1.08 else 1.0
  }

  /** The emissive intensity the button heads for. */
  function TargetGlow(hovered: bool): real
  {
    if hovered then 0.6 else 0.0
  }

  /** Pressed wins over hovered; hovered alone enlarges; neither rests at 1. */
  lemma ScalePriority(hovered: bool)
    ensures TargetScale(true, hovered) == 0.9
    ensures TargetScale(false, true) == 1.08
    ensures TargetScale(false, false) == 1.0
    ensures forall p: bool, h: bool :: 0.9 <= TargetScale(p, h) <= 1.08
  {
  }

  predicate InScaleBand(v: Vec3)
  {
    0.9 <= v.x <= 1.08 && 0.9 <= v.y <= 1.08 && 0.9 <= v.z <= 1.08
  }

  function Uniform(t: real): Vec3
  {
    Vec3(t, t, t)
  }

  /** A scale whose components are in [0.9, 1.08] stays there, whatever the pointer does. */
  lemma ScaleStaysInBand(v: Vec3, pressed: bool, hovered: bool)
    requires InScaleBand(v)
    ensures InScaleBand(StepVec(v, Uniform(TargetScale(pressed, hovered)), ScaleFactor))
  {
  }

  /** The glow stays in [0, 0.6]. */
  lemma GlowStaysInBand(e: real, hovered: bool)
    requires 0.0 <= e <= 0.6
    ensures 0.0 <= Step(e, TargetGlow(hovered), GlowFactor) <= 0.6
  {
    assert Between(Step(e, TargetGlow(hovered), GlowFactor), e, TargetGlow(hovered));
  }

  /**
   * Each frame moves every scale component and the glow strictly closer to their targets
   * (unless already there), cutting the distance by the factors 0.84 and 0.82.
   */
  lemma StepsTowardTargets(s: real, e: real, pressed: bool, hovered: bool)
    ensures var t := TargetScale(pressed, hovered);
      Abs(Step(s, t, ScaleFactor) - t) == 0.84 * Abs(s - t)
      && (s != t ==> Abs(Step(s, t, ScaleFactor) - t) < Abs(s - t))
    ensures var g := TargetGlow(hovered);
      Abs(Step(e, g, GlowFactor) - g) == 0.82 * Abs(e - g)
      && (e != g ==> Abs(Step(e, g, GlowFactor) - g) < Abs(e - g))
  {
    StepContracts(s, TargetScale(pressed, hovered), ScaleFactor);
    StepContracts(e, TargetGlow(hovered), GlowFactor);
  }

  class Button {
    const link: string
    const basePos: Vec3
    var hovered: bool
    var pressed: bool
    var position: Vec3
    var scale: Vec3
    var glow: real

    /** Neither hovered nor pressed; the group sits at `position` at scale 1 with no glow. */
    constructor (link: string, position: Vec3)
      ensures this.link == link && basePos == position && this.position == position
      ensures !hovered && !pressed && scale == Uniform(1.0) && glow == 0.0
    {
      this.link := link;
      basePos := position;
      this.position := position;
      hovered := false;
      pressed := false;
      scale := Uniform(1.0);
      glow := 0.0;
    }

    method PointerOver()
      modifies this
      ensures hovered && pressed == old(pressed)
      ensures position == old(position) && scale == old(scale) && glow == old(glow)
    {
      hovered := true;
    }

    /** Leaving the button also cancels a press, so the button heads back to rest. */
    method PointerOut()
      modifies this
      ensures !hovered && !pressed && TargetScale(pressed, hovered) == 1.0
      ensures position == old(position) && scale == old(scale) && glow == old(glow)
    {
      hovered := false;
      pressed := false;
    }

    /** A press needs no prior hover. */
    method PointerDown()
      modifies this
      ensures pressed && hovered == old(hovered) && TargetScale(pressed, hovered) == 0.9
      ensures position == old(position) && scale == old(scale) && glow == old(glow)
    {
      pressed := true;
    }

    /** Release: the press ends and the link opens once, with no confirmation. */
    method PointerUp(browser: Browser)
      modifies this, browser
      ensures !pressed && hovered == old(hovered)
      ensures browser.openedUrls == old(browser.openedUrls) + [link]
      ensures position == old(position) && scale == old(scale) && glow == old(glow)
    {
      pressed := false;
      browser.Open(link);
    }

    /** One `useFrame` tick; `bob` is the sine offset of the idle motion, an input here. */
    method Frame(bob: real)
      modifies this
      ensures position == old(position).(y := basePos.y + bob)
      ensures scale == StepVec(old(scale), Uniform(TargetScale(pressed, hovered)), ScaleFactor)
      ensures glow == Step(old(glow), TargetGlow(hovered), GlowFactor)
      ensures InScaleBand(old(scale)) ==> InScaleBand(scale)
      ensures 0.0 <= old(glow) <= 0.6 ==> 0.0 <= glow <= 0.6
      ensures hovered == old(hovered) && pressed == old(pressed)
    {
      position := position.(y := basePos.y + bob);
      var t := if pressed then 0.9 else if hovered then 1.08 else 1.0;
      if InScaleBand(scale) {
        ScaleStaysInBand(scale, pressed, hovered);
      }
      scale := StepVec(scale, Vec3(t, t, t), ScaleFactor);
      if 0.0 <= glow <= 0.6 {
        GlowStaysInBand(glow, hovered);
      }
      glow := Step(glow, if hovered then 0.6 else 0.0, GlowFactor);
    }
  }
}
