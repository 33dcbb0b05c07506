/**
 * `FloatingImage`: a gallery picture that registers under its derived id, selects itself
 * when clicked, and each frame eases its position toward a bobbing rest point (pulled
 * toward the camera while selected) and its scale toward 1.2 (selected) or 1.0.
 */
module FloatingImage {
  import opened Wrappers
  import opened Vectors
  import opened Smoothing
  import opened Selection
  import opened Panels

  /** The smoothing factor of both the position and the scale. */
  const Factor: real := 0.12

  /** The scale an image heads for: 1.2 while selected, 1.0 otherwise. */
  function ScaleTarget(expanded: bool): real
  {
    if expanded then 1.2 else 1.0
  }

  /**
   * Where the image heads this frame: its base position raised by `bob` and, while
   * selected, moved half a unit back along the camera's view direction `cameraDir`.
   */
  function TargetPosition(basePos: Vec3, bob: real, cameraDir: Vec3, expanded: bool): Vec3
  {
    var bobbed := basePos.(y := basePos.y + bob);
    if expanded then Add(bobbed, Scale(cameraDir, -0.5)) else bobbed
  }

  /** A scale inside [1.0, 1.2] stays inside it, whichever way the selection goes. */
  lemma ScaleStaysInBand(cur: real, expanded: bool)
    requires 1.0 <= cur <= 1.2
    ensures 1.0 <= FallbackStep(cur, 1.0, ScaleTarget(expanded), Factor) <= 1.2
  {
    assert Between(Step(cur, ScaleTarget(expanded), Factor), cur, ScaleTarget(expanded));
  }

  /**
   * Each frame cuts the distance to the scale target by the factor 0.88, and strictly while
   * the scale is not at the target; a scale of exactly 0 is first replaced by 1.
   */
  lemma ScaleApproachesTarget(cur: real, expanded: bool)
    ensures var s := if cur == 0.0 then 1.0 else cur;
      var t := ScaleTarget(expanded);
      var next := FallbackStep(cur, 1.0, t, Factor);
      Abs(next - t) == 0.88 * Abs(s - t) && (s != t ==> Abs(next - t) < Abs(s - t))
  {
    var s := if cur == 0.0 then 1.0 else cur;
    StepContracts(s, ScaleTarget(expanded), Factor);
  }

  /** A gallery picture; `position` and `scale` are the group transform the frame loop writes. */
  class ImagePanel {
    const uniqueId: string
    const content: Content
    const basePos: Vec3
    var position: Vec3
    var scale: real

    /** `position` is the `position` prop; three.js groups start at scale 1. */
    constructor (url: string, id: Option<string>, contents: map<string, Content>, position: Vec3)
      requires "default" in contents
      ensures uniqueId == DeriveId(id, url)
      ensures content == LookupContent(contents, ContentKey(id, url))
      ensures basePos == position && this.position == position && scale == 1.0
    {
      uniqueId := DeriveId(id, url);
      content := LookupContent(contents, ContentKey(id, url));
      basePos := position;
      this.position := position;
      scale := 1.0;
    }

    /** `expanded = isSelected(uniqueId)`. */
    function Expanded(registry: Registry): (b: bool)
      reads registry
      ensures b <==> registry.selectedId == Some(uniqueId)
    {
      registry.IsSelected(uniqueId)
    }

    /** `handleClick`: one `select(uniqueId)`. */
    method HandleClick(registry: Registry)
      modifies registry
      ensures registry.selectedId == AfterSelect(old(registry.selectedId), uniqueId)
    {
      registry.Select(uniqueId);
    }

    /**
     * One `useFrame` tick. `bob` is the sine offset of the idle motion and `cameraDir` the
     * camera's view direction, both inputs here.
     */
    method Frame(registry: Registry, bob: real, cameraDir: Vec3)
      modifies this
      ensures position == StepVec(old(position), TargetPosition(basePos, bob, cameraDir, Expanded(registry)), Factor)
      ensures scale == FallbackStep(old(scale), 1.0, ScaleTarget(Expanded(registry)), Factor)
      ensures 1.0 <= old(scale) <= 1.2 ==> 1.0 <= scale <= 1.2
    {
      var expanded := registry.IsSelected(uniqueId);
      var target := basePos;
      target := target.(y := target.y + bob);
      if expanded {
        target := Add(target, Scale(cameraDir, -0.5));
      }
      position := StepVec(position, target, Factor);
      var desired := if expanded then 1.2 else 1.0;
      var cur := if scale == 0.0 then 1.0 else scale;
      if 1.0 <= scale <= 1.2 {
        ScaleStaysInBand(scale, expanded);
      }
      scale := Step(cur, desired, Factor);
    }
  }
}
