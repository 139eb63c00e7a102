/** LauncherEdgeEffect: the overscroll glow of a scrollable launcher view, as
    an object whose methods update its fields in place.  Each method is
    proved to move the fields exactly as the matching function of GlowSpec
    moves a `Glow`; the clock reading `now` is passed in by the caller. */
module EdgeEffect {
  import opened GlowSpec
  import GlowProperties

  class LauncherEdgeEffect {
    var state: State
    var glowAlpha: real
    var glowScaleX: real
    var glowAlphaStart: real
    var glowAlphaFinish: real
    var glowScaleXStart: real
    var glowScaleXFinish: real
    var startTime: int
    var duration: real
    var pullDistance: real
    var displacement: real
    var targetDisplacement: real

    var boundsWidth: int
    var boundsHeight: int
    var radius: real
    var baseGlowScale: real

    /** The animation state held in the fields. */
    function Model(): Glow
      reads this`state, this`glowAlpha, this`glowScaleX, this`glowAlphaStart, this`glowAlphaFinish,
            this`glowScaleXStart, this`glowScaleXFinish, this`startTime, this`duration, this`pullDistance,
            this`displacement, this`targetDisplacement
    {
      Glow(state, glowAlpha, glowScaleX, glowAlphaStart, glowAlphaFinish, glowScaleXStart,
           glowScaleXFinish, startTime, duration, pullDistance, displacement, targetDisplacement)
    }

    /** The layout held in the fields. */
    function Geometry(): GlowGeometry
      reads this`boundsWidth, this`boundsHeight, this`radius, this`baseGlowScale
    {
      GlowGeometry(boundsWidth, boundsHeight, radius, baseGlowScale)
    }

    /** The bounds every reachable state keeps (see GlowProperties.RunKeepsBounded). */
    ghost predicate Valid()
      reads this`state, this`glowAlpha, this`glowScaleX, this`glowAlphaStart, this`glowAlphaFinish,
            this`glowScaleXStart, this`glowScaleXFinish, this`startTime, this`duration, this`pullDistance,
            this`displacement, this`targetDisplacement
    {
      Bounded(Model())
    }

    constructor ()
      ensures Model() == Initial() && Valid()
      ensures Geometry() == GlowGeometry(0, 0, 0.0, 0.0)
    {
      state := Idle;
      glowAlpha, glowScaleX := 0.0, 0.0;
      glowAlphaStart, glowAlphaFinish := 0.0, 0.0;
      glowScaleXStart, glowScaleXFinish := 0.0, 0.0;
      startTime, duration := 0, 0.0;
      pullDistance := 0.0;
      displacement, targetDisplacement := Centre, Centre;
      boundsWidth, boundsHeight := 0, 0;
      radius, baseGlowScale := 0.0, 0.0;
    }

    /** Recomputes the layout from the view's size; the animation is untouched. */
    method SetSize(width: int32, height: int32)
      modifies this`boundsWidth, this`boundsHeight, this`radius, this`baseGlowScale
      ensures Geometry() == Sized(width, height)
      ensures Model() == old(Model())
    {
      var r := (height as real) * 0.5 / Sin;
      var y := Cos * r;
      var h := r - y;
      var otherRadius := (width as real) * 0.75 / Sin;
      var oy := Cos * otherRadius;
      var oh := otherRadius - oy;

      radius := r;
      baseGlowScale := if h > 0.0 then Min(oh / h, 1.0) else 1.0;

      boundsWidth := width as int;
      boundsHeight := Trunc(Min(height as real, h));
    }

    /** The animation is over exactly when the glow is idle. */
    function IsFinished(): (finished: bool)
      reads this
      ensures finished <==> Model().state == Idle
    {
      state == Idle
    }

    /** Stops the animation at once: the glow goes idle and nothing else changes. */
    method Finish()
      modifies this`state
      ensures IsFinished()
      ensures Model() == old(Model()).(state := Idle)
      ensures old(Valid()) ==> Valid()
    {
      state := Idle;
    }

    /** onPull(deltaDistance, displacement).  `root` is the host's square root
        of |accumulated pull| times the bounds width. */
    method OnPull(deltaDistance: real, displacement: real, now: int, root: real)
      requires IsRoot(root, Abs(pullDistance + deltaDistance) * (boundsWidth as real))
      modifies this`state, this`glowAlpha, this`glowScaleX, this`glowAlphaStart, this`glowAlphaFinish,
        this`glowScaleXStart, this`glowScaleXFinish, this`startTime, this`duration, this`pullDistance,
        this`targetDisplacement
      ensures Model() == Pulled(old(Model()), now, deltaDistance, displacement, root)
    {
      ghost var g := Model();
      PullEffect(g, now, deltaDistance, displacement, root);
      targetDisplacement := displacement;
      if state == PullDecay && ((now - startTime) as real) < duration {
        return;
      }
      if state != Pull {
        glowScaleX := Max(PullGlowBegin, glowScaleX);
      }
      state := Pull;

      startTime := now;
      duration := PullTime;

      pullDistance := pullDistance + deltaDistance;

      var absdd := Abs(deltaDistance);
      glowAlpha := Min(MaxAlpha, glowAlpha + absdd * PullDistanceAlphaGlowFactor);
      glowAlphaStart := glowAlpha;

      if pullDistance == 0.0 {
        glowScaleX := 0.0;
        glowScaleXStart := 0.0;
      } else {
        var scale := PullScale(root);
        glowScaleX := scale;
        glowScaleXStart := scale;
      }

      glowAlphaFinish := glowAlpha;
      glowScaleXFinish := glowScaleX;
    }

    /** onPull(deltaDistance): a pull at the centre of the edge. */
    method OnPullCentred(deltaDistance: real, now: int, root: real)
      requires IsRoot(root, Abs(pullDistance + deltaDistance) * (boundsWidth as real))
      modifies this`state, this`glowAlpha, this`glowScaleX, this`glowAlphaStart, this`glowAlphaFinish,
        this`glowScaleXStart, this`glowScaleXFinish, this`startTime, this`duration, this`pullDistance,
        this`targetDisplacement
      ensures Model() == Pulled(old(Model()), now, deltaDistance, Centre, root)
    {
      OnPull(deltaDistance, Centre, now, root);
    }

    /** onRelease() at time `now`. */
    method OnRelease(now: int)
      modifies this`state, this`glowAlphaStart, this`glowAlphaFinish, this`glowScaleXStart,
        this`glowScaleXFinish, this`startTime, this`duration, this`pullDistance
      ensures Model() == Released(old(Model()), now)
      ensures old(Valid()) ==> Valid()
    {
      ghost var g := Model();
      ReleaseEffect(g, now);
      if Bounded(g) { GlowProperties.ReleaseKeepsBounded(g, now); }
      pullDistance := 0.0;

      if state != Pull && state != PullDecay {
        return;
      }

      state := Recede;
      glowAlphaStart := glowAlpha;
      glowScaleXStart := glowScaleX;

      glowAlphaFinish := 0.0;
      glowScaleXFinish := 0.0;

      startTime := now;
      duration := RecedeTime;
    }

    /** onAbsorb(velocity) at time `now`. */
    method OnAbsorb(velocity: int32, now: int)
      modifies this`state, this`glowAlphaStart, this`glowAlphaFinish, this`glowScaleXStart,
        this`glowScaleXFinish, this`startTime, this`duration, this`targetDisplacement
      ensures Model() == Absorbed(old(Model()), now, velocity)
      ensures old(Valid()) ==> Valid()
    {
      ghost var g := Model();
      AbsorbEffect(g, now, velocity);
      if Bounded(g) { GlowProperties.AbsorbKeepsBounded(g, now, velocity); }
      state := Absorb;
      var v := MinInt(MaxInt(MinVelocity, JavaAbs(velocity)), MaxVelocity);

      startTime := now;
      duration := 0.15 + (v as real * 0.02);

      glowAlphaStart := AbsorbAlphaStart;
      glowScaleXStart := Max(glowScaleX, 0.0);

      glowScaleXFinish := Min(0.025 + ((v * (v / 100)) as real * 0.00015) / 2.0, 1.0);
      glowAlphaFinish := Max(glowAlphaStart, Min((v * VelocityGlowFactor) as real * 0.00001, MaxAlpha));
      targetDisplacement := Centre;
    }

    /** update() at time `now`: interpolate along the segment, smooth the
        displacement, and move on to the next phase once the segment is over. */
    method Update(now: int)
      modifies this`state, this`glowAlpha, this`glowScaleX, this`glowAlphaStart, this`glowAlphaFinish,
        this`glowScaleXStart, this`glowScaleXFinish, this`startTime, this`duration, this`displacement
      ensures Model() == Updated(old(Model()), now)
      ensures old(Valid()) && old(startTime) <= now ==> Valid()
    {
      ghost var g := Model();
      if Bounded(g) && g.startTime <= now { GlowProperties.UpdateKeepsBounded(g, now); }
      var t := ElapsedFraction(now - startTime, duration);
      var interp := Decelerate(t);

      glowAlpha := Lerp(glowAlphaStart, glowAlphaFinish, interp);
      glowScaleX := Lerp(glowScaleXStart, glowScaleXFinish, interp);
      displacement := (displacement + targetDisplacement) / 2.0;

      if t >= 1.0 - Epsilon {
        match state {
          case Absorb =>
            state := Recede;
            startTime := now;
            duration := RecedeTime;
            glowAlphaStart := glowAlpha;
            glowScaleXStart := glowScaleX;
            glowAlphaFinish := 0.0;
            glowScaleXFinish := 0.0;
          case Pull =>
            state := PullDecay;
            startTime := now;
            duration := PullDecayTime;
            glowAlphaStart := glowAlpha;
            glowScaleXStart := glowScaleX;
            glowAlphaFinish := 0.0;
            glowScaleXFinish := 0.0;
          case PullDecay =>
            state := Recede;
          case Recede =>
            state := Idle;
          case Idle =>
        }
      }
    }

    /** The state part of draw() at time `now`: update, then let a receding
        glow that has shrunk to nothing go idle with one last frame.  Returns
        whether the host must draw another frame. */
    method Draw(now: int) returns (more: bool)
      modifies this`state, this`glowAlpha, this`glowScaleX, this`glowAlphaStart, this`glowAlphaFinish,
        this`glowScaleXStart, this`glowScaleXFinish, this`startTime, this`duration, this`displacement
      ensures Frame(Model(), more) == Drawn(old(Model()), now)
      ensures old(Valid()) && old(startTime) <= now ==> Valid()
    {
      Update(now);

      var oneLastFrame := false;
      if state == Recede && glowScaleX == 0.0 {
        state := Idle;
        oneLastFrame := true;
      }

      more := state != Idle || oneLastFrame;
    }

    /** getMaxWidth(): the widest the glow is drawn, twice the bounds width. */
    function GetMaxWidth(): (m: int)
      reads this`boundsWidth
      ensures 0 <= boundsWidth ==> m == 2 * boundsWidth
      ensures boundsWidth < 0 ==> m == 2 * boundsWidth + 1
    {
      MaxWidth(boundsWidth)
    }
  }
}
