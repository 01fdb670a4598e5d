/**
 * The playback state of the piston animation: the progress through the
 * cycle, the speed multiplier, the time of the last frame and whether
 * the animation is playing, as `animate`, the two sliders, the
 * play/pause and reset buttons and the cycle-data effect update them.
 * Clock readings are passed in as parameters.
 */
module AnimationPlayback {

  /**
   * The progress after a frame `deltaTime` milliseconds long (a cycle
   * lasts 5000 ms at speed 1): it moves by `deltaTime / 5000 * speed`
   * and is then wrapped.
   */
  function AdvanceProgress(progress: real, deltaTime: real, speed: real): (r: real)
  {
    Wrap(progress + (deltaTime / 5000.0) * speed)
  }

  /**
   * The loop rule: a progress strictly past 1 is reduced modulo 1
   * (JavaScript's `%` on a positive number); anything else is kept.
   */
  function Wrap(q: real): (r: real)
    ensures r == q <==> q <= 1.0
    ensures q > 1.0 ==> 0.0 <= r < 1.0 && r + (q.Floor as real) == q && q.Floor >= 1
  {
    if q > 1.0 then q - (q.Floor as real) else q
  }

  /** A frame's advance followed by the loop rule is `AdvanceProgress`. */
  lemma AdvanceThenWrap(progress: real, deltaTime: real, speed: real, advanced: real)
    requires advanced == progress + (deltaTime / 5000.0) * speed
    ensures AdvanceProgress(progress, deltaTime, speed) == Wrap(advanced)
  {
  }

  /** Going forward in time at a non-negative speed keeps the progress in [0, 1]. */
  lemma AdvanceStaysInCycle(progress: real, deltaTime: real, speed: real)
    requires 0.0 <= progress <= 1.0
    requires deltaTime >= 0.0 && speed >= 0.0
    ensures 0.0 <= AdvanceProgress(progress, deltaTime, speed) <= 1.0
  {
    NonNegativeProduct(deltaTime / 5000.0, speed);
  }

  lemma NonNegativeProduct(a: real, b: real)
    requires a >= 0.0 && b >= 0.0
    ensures a * b >= 0.0
  {
  }

  /** The progress slider's value `[progress * 100]` maps back to the progress. */
  function SliderProgress(value: seq<real>): (progress: real)
    requires |value| > 0
    ensures progress * 100.0 == value[0]
  {
    value[0] / 100.0
  }

  /** The slider round trip: showing `progress * 100` and reading it back gives the progress. */
  lemma SliderRoundTrip(progress: real)
    ensures SliderProgress([progress * 100.0]) == progress
  {
  }

  /** The states of the speed slider: from 0.5 to 3 in steps of 0.5. */
  predicate OnSpeedSlider(speed: real) {
    exists n: int {:trigger n as real} :: 1 <= n <= 6 && speed == 0.5 * (n as real)
  }

  class AnimationState {
    var progress: real
    var speed: real
    var lastTimestamp: real
    var isPlaying: bool

    /** Progress within one cycle and a speed that does not run time backwards. */
    ghost predicate Valid()
      reads this
    {
      0.0 <= progress <= 1.0 && speed >= 0.0
    }

    /** The initial `stateRef` and React state: progress 0, speed 1, not playing. */
    constructor ()
      ensures Valid()
      ensures progress == 0.0 && speed == 1.0 && lastTimestamp == 0.0 && !isPlaying
    {
      progress := 0.0;
      speed := 1.0;
      lastTimestamp := 0.0;
      isPlaying := false;
    }

    /**
     * One animation frame at clock reading `timestamp`; nothing happens
     * when the canvas is gone. A reading earlier than the last one moves
     * the progress backwards, possibly below 0, where the loop rule does
     * not catch it; later frames and slider drags still run from there.
     */
    method Animate(timestamp: real, canvasMounted: bool)
      modifies this
      ensures old(Valid()) && (!canvasMounted || timestamp >= old(lastTimestamp)) ==> Valid()
      ensures canvasMounted ==>
        && progress == AdvanceProgress(old(progress), timestamp - old(lastTimestamp), old(speed))
        && lastTimestamp == timestamp
      ensures !canvasMounted ==> progress == old(progress) && lastTimestamp == old(lastTimestamp)
      ensures speed == old(speed) && isPlaying == old(isPlaying)
    {
      if canvasMounted {
        var deltaTime := timestamp - lastTimestamp;
        lastTimestamp := timestamp;
        var next := progress + (deltaTime / 5000.0) * speed;
        ghost var advanced := next;
        if next > 1.0 {
          next := next - (next.Floor as real);
        }
        progress := next;
        AdvanceThenWrap(old(progress), deltaTime, old(speed), advanced);
      }
    }

    /** `handleSliderChange`: the progress becomes the slider value over 100. */
    method SlideTo(value: seq<real>)
      requires |value| > 0
      modifies this
      ensures progress == SliderProgress(value)
      ensures speed == old(speed) && lastTimestamp == old(lastTimestamp) && isPlaying == old(isPlaying)
      ensures old(Valid()) && 0.0 <= value[0] <= 100.0 ==> Valid()
    {
      progress := value[0] / 100.0;
    }

    /**
     * The play/pause button; starting playback stamps the clock reading
     * `now` as the last frame time.
     */
    method TogglePlayPause(now: real)
      modifies this
      ensures isPlaying == !old(isPlaying)
      ensures lastTimestamp == if isPlaying then now else old(lastTimestamp)
      ensures progress == old(progress) && speed == old(speed)
      ensures old(Valid()) ==> Valid()
    {
      isPlaying := !isPlaying;
      if isPlaying {
        lastTimestamp := now;
      }
    }

    /** `resetAnimation`: stop and return to the start of the cycle. */
    method Reset()
      modifies this
      ensures !isPlaying && progress == 0.0
      ensures speed == old(speed) && lastTimestamp == old(lastTimestamp)
      ensures old(Valid()) ==> Valid()
    {
      isPlaying := false;
      progress := 0.0;
    }

    /** The speed slider, copied into the animation state by its effect. */
    method SetSpeed(value: seq<real>)
      requires |value| > 0
      modifies this
      ensures speed == value[0]
      ensures progress == old(progress) && lastTimestamp == old(lastTimestamp) && isPlaying == old(isPlaying)
      ensures old(Valid()) && OnSpeedSlider(value[0]) ==> Valid()
    {
      speed := value[0];
    }

    /** New cycle data that is not being calculated restarts the cycle. */
    method CycleDataChanged(hasData: bool, isCalculating: bool)
      modifies this
      ensures progress == if hasData && !isCalculating then 0.0 else old(progress)
      ensures speed == old(speed) && lastTimestamp == old(lastTimestamp) && isPlaying == old(isPlaying)
      ensures old(Valid()) ==> Valid()
    {
      if hasData && !isCalculating {
        progress := 0.0;
      }
    }
  }
}
