/**
 * `FloatingVideo`: a looping video panel that plays, unmuted, exactly while it is selected
 * and its video can play, and grows to 1.3 while playing.
 */
module FloatingVideo {
  import opened Wrappers
  import opened Vectors
  import opened Smoothing
  import opened Selection
  import opened Panels

  const Factor: real := 0.12

  /** The video element's playback flags and the component's `playing` state. */
  datatype Playback = Playback(playing: bool, muted: bool, paused: bool)

  /** After the load effect: muted and paused, and `playing` starts false. */
  const Loaded: Playback := Playback(false, true, true)

  /**
   * The sync effect: nothing until the video can play; then selected means unmuted and
   * playing, and not selected means paused and muted.
   */
  function Sync(p: Playback, ready: bool, expanded: bool): (q: Playback)
    ensures !ready ==> q == p
    ensures ready ==> q.playing == expanded && q.muted == !expanded && q.paused == !expanded
  {
    if !ready then p
    else if expanded then p.(muted := false, paused := false, playing := true)
    else p.(paused := true, muted := true, playing := false)
  }

  /** The element is audible and running exactly when the component believes it is playing. */
  predicate Consistent(p: Playback)
  {
    p.paused == !p.playing && p.muted == !p.playing
  }

  /** The loaded state is consistent and every sync keeps it so. */
  lemma SyncKeepsConsistent(p: Playback, ready: bool, expanded: bool)
    requires Consistent(p)
    ensures Consistent(Loaded)
    ensures Consistent(Sync(p, ready, expanded))
  {
  }

  /** Running the effect again with the same inputs changes nothing. */
  lemma SyncIdempotent(p: Playback, ready: bool, expanded: bool)
    ensures Sync(Sync(p, ready, expanded), ready, expanded) == Sync(p, ready, expanded)
  {
  }

  /**
   * Once the video is ready, after the effect runs on a selection change, the panel is
   * playing (and so shows its info popup) exactly when it is selected.
   */
  lemma PlayingIffSelected(p: Playback, expanded: bool)
    ensures Sync(p, true, expanded).playing <==> expanded
  {
  }

  /** The scale a video heads for: 1.3 while playing, 1.0 otherwise. */
  function ScaleTarget(playing: bool): real
  {
    if playing then 1.3 else 1.0
  }

  /** A scale inside [1.0, 1.3] stays inside it. */
  lemma ScaleStaysInBand(cur: real, playing: bool)
    requires 1.0 <= cur <= 1.3
    ensures 1.0 <= FallbackStep(cur, 0.5, ScaleTarget(playing), Factor) <= 1.3
  {
    assert Between(Step(cur, ScaleTarget(playing), Factor), cur, ScaleTarget(playing));
  }

  /** A scale of exactly 0 restarts from 0.5, below the band, and from there grows toward the target. */
  lemma ZeroScaleRestarts(playing: bool)
    ensures 0.5 < FallbackStep(0.0, 0.5, ScaleTarget(playing), Factor) < ScaleTarget(playing)
  {
  }

  class VideoPanel {
    const uniqueId: string
    const content: Content
    const basePos: Vec3
    var videoReady: bool
    var playing: bool
    var muted: bool
    var paused: bool
    var position: Vec3
    var scale: real

    /** The panel after mounting and the load effect, before the `canplay` event. */
    constructor (url: string, id: Option<string>, contents: map<string, Content>, position: Vec3)
      requires "default" in contents
      ensures uniqueId == DeriveId(id, url)
      ensures content == LookupContent(contents, ContentKey(id, url))
      ensures !videoReady && State() == Loaded
      ensures basePos == position && this.position == position && scale == 1.0
    {
      uniqueId := DeriveId(id, url);
      content := LookupContent(contents, ContentKey(id, url));
      basePos := position;
      this.position := position;
      scale := 1.0;
      videoReady := false;
      playing := false;
      muted := true;
      paused := true;
    }

    function State(): Playback
      reads this
    {
      Playback(playing, muted, paused)
    }

    function Expanded(registry: Registry): (b: bool)
      reads registry
      ensures b <==> registry.selectedId == Some(uniqueId)
    {
      registry.IsSelected(uniqueId)
    }

    /** The info popup is rendered only while playing. */
    predicate InfoShown()
      reads this
    {
      playing
    }

    /** `handleCanPlay`. */
    method OnCanPlay()
      modifies this
      ensures videoReady && State() == old(State())
      ensures position == old(position) && scale == old(scale)
    {
      videoReady := true;
    }

    /** The effect that runs when `expanded` or `videoReady` changes. */
    method SyncPlayback(registry: Registry)
      modifies this
      ensures State() == Sync(old(State()), videoReady, Expanded(registry))
      ensures videoReady == old(videoReady) && position == old(position) && scale == old(scale)
    {
      if !videoReady {
        return;
      }
      if registry.IsSelected(uniqueId) {
        muted := false;
        paused := false;
        playing := true;
      } else {
        paused := true;
        muted := true;
        playing := false;
      }
    }

    method HandleClick(registry: Registry)
      modifies registry
      ensures registry.selectedId == AfterSelect(old(registry.selectedId), uniqueId)
    {
      registry.Select(uniqueId);
    }

    /** One `useFrame` tick: the video never moves toward the camera; it eases toward its bobbing rest point. */
    method Frame(bob: real)
      modifies this
      ensures position == StepVec(old(position), basePos.(y := basePos.y + bob), Factor)
      ensures scale == FallbackStep(old(scale), 0.5, ScaleTarget(playing), Factor)
      ensures 1.0 <= old(scale) <= 1.3 ==> 1.0 <= scale <= 1.3
      ensures State() == old(State()) && videoReady == old(videoReady)
    {
      var target := basePos;
      target := target.(y := target.y + bob);
      position := StepVec(position, target, Factor);
      var desired := if playing then 1.3 else 1.0;
      var cur := if scale == 0.0 then 0.5 else scale;
      if 1.0 <= scale <= 1.3 {
        ScaleStaysInBand(scale, playing);
      }
      scale := Step(cur, desired, Factor);
    }
  }
}
