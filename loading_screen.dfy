/**
 * `LoadingScreen`: the welcome overlay. A frame loop advances a simulated progress from 0
 * to 100 over `duration` milliseconds; the navigation help and the Enter button appear once
 * the assets are loaded and the progress has (all but) reached 100; the overlay fades out
 * once entered and is removed when its animation ends.
 */
module LoadingScreen {

  /** The default `duration` prop, in milliseconds. */
  const DefaultDuration: real := 500.0

  /** `Math.min(100, (dt / duration) * 100)`. */
  function Progress(dt: real, duration: real): real
    requires duration > 0.0
  {
    var raw := dt / duration * 100.0;
    if raw < 100.0 then raw else 100.0
  }

  /**
   * The progress is never above 100, is 100 exactly once `duration` has elapsed, never
   * goes down as time passes, and is not negative for a non-negative elapsed time.
   */
  lemma ProgressBounds(dt: real, duration: real)
    requires duration > 0.0
    ensures Progress(dt, duration) <= 100.0
    ensures Progress(dt, duration) == 100.0 <==> dt >= duration
    ensures dt >= 0.0 ==> Progress(dt, duration) >= 0.0
  {
    var raw := dt / duration * 100.0;
    if dt >= duration {
      assert dt / duration >= 1.0;
    } else {
      assert dt / duration < 1.0;
      assert raw < 100.0;
    }
  }

  lemma ProgressMonotone(dt1: real, dt2: real, duration: real)
    requires duration > 0.0 && dt1 <= dt2
    ensures Progress(dt1, duration) <= Progress(dt2, duration)
  {
    assert dt1 / duration <= dt2 / duration;
  }

  /** The loop asks for another frame exactly while the progress is below 100, that is until `duration` has elapsed. */
  lemma ReschedulesUntilDone(dt: real, duration: real)
    requires duration > 0.0
    ensures Progress(dt, duration) < 100.0 <==> dt < duration
  {
    ProgressBounds(dt, duration);
  }

  /** `total === 0 ? true : loaded >= total`. */
  predicate AssetsLoaded(loaded: nat, total: nat)
  {
    if total == 0 then true else loaded >= total
  }

  /** With counts that cannot be negative, the `total === 0` case is just `loaded >= total`. */
  lemma AssetsLoadedIff(loaded: nat, total: nat)
    ensures AssetsLoaded(loaded, total) <==> loaded >= total
  {
  }

  predicate TimerDone(simProgress: real)
  {
    simProgress >= 99.999
  }

  /** `readyToShowControls`: the help and the Enter button replace the hint only when this holds. */
  predicate Ready(loaded: nat, total: nat, simProgress: real)
  {
    AssetsLoaded(loaded, total) && TimerDone(simProgress)
  }

  /** `Math.round`: the nearest integer, halves rounded up. */
  function Round(x: real): (n: int)
    ensures n as real - 0.5 <= x < n as real + 0.5
  {
    (x + 0.5).Floor
  }

  /** The percentage shown: a whole number in [0, 100] for a progress in [0, 100], and 100 once ready. */
  lemma DisplayPctBounds(simProgress: real, loaded: nat, total: nat)
    ensures 0.0 <= simProgress <= 100.0 ==> 0 <= Round(simProgress) <= 100
    ensures Ready(loaded, total, simProgress) && simProgress <= 100.0 ==> Round(simProgress) == 100
  {
  }

  /** Once the duration has elapsed and the assets are in, the controls show. */
  lemma ReadyAfterDuration(dt: real, duration: real, loaded: nat, total: nat)
    requires duration > 0.0 && dt >= duration && loaded >= total
    ensures Ready(loaded, total, Progress(dt, duration))
  {
    ProgressBounds(dt, duration);
  }

  class Overlay {
    const duration: real
    var start: real
    var simProgress: real
    /** Whether a `requestAnimationFrame(tick)` is pending. */
    var scheduled: bool
    var entered: bool
    var visible: bool

    /** The overlay is never hidden before it has been entered, and the progress never passes 100. */
    predicate Valid()
      reads this
    {
      duration > 0.0 && (!entered ==> visible) && simProgress <= 100.0
    }

    /** Mounting: the timer starts at `now` and the first frame is requested; the overlay is visible. */
    constructor (duration: real, entered: bool, now: real)
      requires duration > 0.0
      ensures Valid()
      ensures this.duration == duration && this.entered == entered && visible
      ensures start == now && simProgress == 0.0 && scheduled
    {
      this.duration := duration;
      this.entered := entered;
      start := now;
      simProgress := 0.0;
      scheduled := true;
      visible := true;
    }

    /** The frame callback with timestamp `now`: set the progress, and ask for another frame while below 100. */
    method Tick(now: real)
      requires Valid() && scheduled
      modifies this
      ensures Valid()
      ensures simProgress == Progress(now - start, duration)
      ensures scheduled <==> now - start < duration
      ensures start == old(start) && entered == old(entered) && visible == old(visible)
    {
      var pct := Progress(now - start, duration);
      ProgressBounds(now - start, duration);
      simProgress := pct;
      scheduled := pct < 100.0;
    }

    /** A new `entered` prop; the effect shows the overlay again whenever it becomes false. */
    method SetEntered(e: bool)
      requires Valid()
      modifies this
      ensures Valid()
      ensures entered == e && (!e ==> visible) && (e ==> visible == old(visible))
      ensures simProgress == old(simProgress) && scheduled == old(scheduled) && start == old(start)
    {
      entered := e;
      if !e {
        visible := true;
      }
    }

    /** The end of an animation on the overlay removes it, but only once entered. */
    method OnAnimationEnd()
      requires Valid()
      modifies this
      ensures Valid()
      ensures visible == (old(visible) && !entered)
      ensures entered == old(entered) && simProgress == old(simProgress) && scheduled == old(scheduled)
      ensures start == old(start)
    {
      if entered {
        visible := false;
      }
    }
  }
}
