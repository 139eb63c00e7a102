/** Properties of the glow controller that relate several calls: the bounds
    every reachable state keeps, the absorb clamp, the response to faster
    flings, and that drawing past each segment's end brings the glow to rest. */
module GlowProperties {
  import opened GlowSpec

  type NonNegReal = r: real | 0.0 <= r

  /** One call the host makes on the controller (setSize does not touch the
      animation state and is left out of traces). */
  datatype Step =
    | PullStep(now: int, deltaDistance: real, displacement: real, root: NonNegReal)
    | ReleaseStep(now: int)
    | AbsorbStep(now: int, velocity: int32)
    | DrawStep(now: int)
    | FinishStep

  function Apply(g: Glow, step: Step): Glow {
    match step
    case PullStep(now, d, disp, root) => Pulled(g, now, d, disp, root)
    case ReleaseStep(now) => Released(g, now)
    case AbsorbStep(now, v) => Absorbed(g, now, v)
    case DrawStep(now) => Drawn(g, now).next
    case FinishStep => g.(state := Idle)
  }

  /** The state after the host makes the given calls in turn. */
  function Run(g: Glow, steps: seq<Step>): Glow
    decreases |steps|
  {
    if steps == [] then g else Run(Apply(g, steps[0]), steps[1..])
  }

  /** The clock reading of a step; finish does not read the clock. */
  function TimeOf(step: Step, last: int): int {
    if step.FinishStep? then last else step.now
  }

  /** The clock never runs backwards across the steps, starting from `from`. */
  predicate Monotone(from: int, steps: seq<Step>)
    decreases |steps|
  {
    steps == [] || (from <= TimeOf(steps[0], from) && Monotone(TimeOf(steps[0], from), steps[1..]))
  }

  /** The last clock reading of the steps, or `from` when none reads the clock. */
  function LastTime(from: int, steps: seq<Step>): int
    decreases |steps|
  {
    if steps == [] then from else LastTime(TimeOf(steps[0], from), steps[1..])
  }

  lemma PullKeepsBounded(g: Glow, now: int, deltaDistance: real, displacement: real, root: real)
    requires Bounded(g) && 0.0 <= root
    ensures Bounded(Pulled(g, now, deltaDistance, displacement, root))
  {
    PullEffect(g, now, deltaDistance, displacement, root);
  }

  lemma ReleaseKeepsBounded(g: Glow, now: int)
    requires Bounded(g)
    ensures Bounded(Released(g, now))
  {
    ReleaseEffect(g, now);
  }

  lemma AbsorbKeepsBounded(g: Glow, now: int, velocity: int32)
    requires Bounded(g)
    ensures Bounded(Absorbed(g, now, velocity))
  {
    AbsorbEffect(g, now, velocity);
  }

  /** An update keeps the bounds when the clock has not run back past the
      segment's start: alpha and scale stay between their start and finish. */
  lemma UpdateKeepsBounded(g: Glow, now: int)
    requires Bounded(g) && g.startTime <= now
    ensures Bounded(Updated(g, now))
  {
    UpdateInterpolates(g, now);
    UpdateTransitions(g, now);
  }

  /** One call keeps the bounds, and leaves the segment starting no later than
      the clock reading of the call. */
  lemma StepKeepsBounded(g: Glow, step: Step, from: int)
    requires Bounded(g) && g.startTime <= from <= TimeOf(step, from)
    ensures Bounded(Apply(g, step))
    ensures Apply(g, step).startTime <= TimeOf(step, from)
  {
    match step
    case PullStep(now, d, disp, root) =>
      PullKeepsBounded(g, now, d, disp, root);
      PullEffect(g, now, d, disp, root);
    case ReleaseStep(now) =>
      ReleaseKeepsBounded(g, now);
      ReleaseEffect(g, now);
    case AbsorbStep(now, v) =>
      AbsorbKeepsBounded(g, now, v);
      AbsorbEffect(g, now, v);
    case DrawStep(now) =>
      UpdateKeepsBounded(g, now);
      UpdateTransitions(g, now);
      DrawEffect(g, now);
    case FinishStep =>
  }

  /** With the clock running forward, every call sequence keeps opacity within
      [0, MaxAlpha], scale within [0, 1] and segments no longer than PullDecayTime,
      and the last segment starts no later than the last clock reading. */
  lemma {:induction false} RunKeepsBounded(g: Glow, from: int, steps: seq<Step>)
    requires Bounded(g) && g.startTime <= from && Monotone(from, steps)
    ensures Bounded(Run(g, steps))
    ensures Run(g, steps).startTime <= LastTime(from, steps)
    decreases |steps|
  {
    if steps != [] {
      StepKeepsBounded(g, steps[0], from);
      RunKeepsBounded(Apply(g, steps[0]), TimeOf(steps[0], from), steps[1..]);
    }
  }

  /** Every state a freshly constructed controller reaches under a clock that
      starts at or after 0 and never runs backwards is bounded. */
  lemma ReachableIsBounded(steps: seq<Step>)
    requires Monotone(0, steps)
    ensures Bounded(Run(Initial(), steps))
  {
    RunKeepsBounded(Initial(), 0, steps);
  }

  // ---------------------------------------------------------------- absorb

  /** Absorb looks only at the clamped magnitude of the velocity: the sign
      and any excess beyond [MinVelocity, MaxVelocity] are ignored. */
  lemma AbsorbIgnoresSignAndExcess(g: Glow, now: int, v: int32)
    ensures v != -0x8000_0000 ==> Absorbed(g, now, -v) == Absorbed(g, now, v)
    ensures Absorbed(g, now, ClampVelocity(v) as int32) == Absorbed(g, now, v)
  {
  }

  /** Java's Math.abs leaves the most negative int negative, so that velocity
      is clamped to the weakest absorb, not the strongest. */
  lemma AbsorbMostNegative(g: Glow, now: int)
    ensures Absorbed(g, now, -0x8000_0000) == Absorbed(g, now, MinVelocity as int32)
    ensures Absorbed(g, now, -0x7fff_ffff) == Absorbed(g, now, MaxVelocity as int32)
  {
  }

  /** A faster fling never gives a smaller, fainter or shorter absorb glow. */
  lemma {:induction false} AbsorbResponseMonotone(g: Glow, now: int, v1: int32, v2: int32)
    requires ClampVelocity(v1) <= ClampVelocity(v2)
    ensures Absorbed(g, now, v1).scaleXFinish <= Absorbed(g, now, v2).scaleXFinish
    ensures Absorbed(g, now, v1).alphaFinish <= Absorbed(g, now, v2).alphaFinish
    ensures Absorbed(g, now, v1).duration <= Absorbed(g, now, v2).duration
  {
    var c1, c2 := ClampVelocity(v1), ClampVelocity(v2);
    QuadraticMonotone(c1, c2);
  }

  lemma QuadraticMonotone(a: int, b: int)
    requires MinVelocity <= a <= b
    ensures AbsorbScaleFinish(a) <= AbsorbScaleFinish(b)
  {
    var qa, qb := a / 100, b / 100;
    DivMonotone(a, b, 100);
    IntMulMonotone(a, b, qa);
    IntMulMonotone(qa, qb, b);
    assert a * qa <= b * qb;
  }

  lemma DivMonotone(a: int, b: int, d: int)
    requires 0 <= a <= b && 0 < d
    ensures a / d <= b / d
  {
    if b / d < a / d {
      assert d * (b / d) + b % d == b;
      assert d * (a / d) + a % d == a;
      IntMulMonotone(b / d + 1, a / d, d);
    }
  }

  lemma IntMulMonotone(x: int, y: int, k: int)
    requires x <= y && 0 <= k
    ensures x * k <= y * k
  {
  }

  // ------------------------------------------------------------ coming to rest

  /** How many segment ends a state is from Idle at most. */
  function Rank(s: State): (n: nat)
    ensures n == 0 <==> s == Idle
  {
    match s
    case Idle => 0
    case Recede => 1
    case PullDecay => 2
    case Absorb => 2
    case Pull => 3
  }

  /** A draw after the current segment's end moves the glow strictly closer
      to Idle; it either keeps the segment or starts a new one at the draw,
      so the segment it leaves starts no later than the draw. */
  lemma LateDrawProgresses(g: Glow, now: int)
    requires 0.0 <= g.duration <= PullDecayTime && g.duration <= (now - g.startTime) as real
    ensures var n := Drawn(g, now).next;
      (n.state == Idle || Rank(n.state) < Rank(g.state)) &&
      (SameSegment(n, g) || n.startTime == now) &&
      n.startTime <= now && 0.0 <= n.duration <= PullDecayTime
  {
    UpdateInterpolates(g, now);
    UpdateTransitions(g, now);
    DrawEffect(g, now);
    ElapsedFractionBounds(now - g.startTime, g.duration);
    assert SegmentDone(g, now);
  }

  /** Draws spaced at least PullDecayTime apart, the first that long after `from`. */
  predicate Spaced(from: int, steps: seq<Step>)
    decreases |steps|
  {
    steps == [] ||
    (steps[0].DrawStep? && PullDecayTime <= (steps[0].now - from) as real && Spaced(steps[0].now, steps[1..]))
  }

  /** Drawing at widely spaced times brings any state whose segment is at most
      PullDecayTime long and started no later than `from` to Idle: each draw
      lowers the rank, so Rank(state) draws suffice (three at most). */
  lemma {:induction false} LateDrawsReachIdle(g: Glow, from: int, steps: seq<Step>)
    requires 0.0 <= g.duration <= PullDecayTime && g.startTime <= from && Spaced(from, steps)
    ensures Rank(g.state) <= |steps| ==> Run(g, steps).state == Idle
    ensures Rank(Run(g, steps).state) <= Rank(g.state)
    decreases |steps|
  {
    if steps != [] {
      var now := steps[0].now;
      LateDrawProgresses(g, now);
      var n := Apply(g, steps[0]);
      LateDrawsReachIdle(n, now, steps[1..]);
      if n.state == Idle {
        assert Rank(Run(n, steps[1..]).state) == 0;
      }
    }
  }

  /** Running two call sequences in turn is running their concatenation. */
  lemma {:induction false} RunAppend(g: Glow, steps: seq<Step>, more: seq<Step>)
    ensures Run(g, steps + more) == Run(Run(g, steps), more)
    decreases |steps|
  {
    if steps != [] {
      assert (steps + more)[0] == steps[0];
      assert (steps + more)[1..] == steps[1..] + more;
      RunAppend(Apply(g, steps[0]), steps[1..], more);
    } else {
      assert steps + more == more;
    }
  }

  /** Every reachable state comes to rest: after any calls made under a clock
      that starts at or after 0 and never runs backwards, three draws spaced
      PullDecayTime apart, the first that long after the last clock reading,
      leave the glow idle. */
  lemma ReachableComesToRest(steps: seq<Step>, draws: seq<Step>)
    requires Monotone(0, steps) && Spaced(LastTime(0, steps), draws) && 3 <= |draws|
    ensures Run(Initial(), steps + draws).state == Idle
  {
    var g := Run(Initial(), steps);
    RunKeepsBounded(Initial(), 0, steps);
    LateDrawsReachIdle(g, LastTime(0, steps), draws);
    RunAppend(Initial(), steps, draws);
  }

  /** A release followed, RecedeTime later, by a draw leaves the glow idle
      and asks for no further frame. */
  lemma ReleaseThenLateDraw(g: Glow, now: int, later: int)
    requires g.state == Pull || g.state == PullDecay
    requires RecedeTime <= (later - now) as real
    ensures !Drawn(Released(g, now), later).more
    ensures Drawn(Released(g, now), later).next.state == Idle
  {
    ReleaseEffect(g, now);
    var r := Released(g, now);
    ElapsedFractionBounds(later - r.startTime, r.duration);
    UpdateTransitions(r, later);
    DrawEffect(r, later);
  }

  /** A pull leaves the glow running, and the next draw, whenever it comes,
      asks for another frame. */
  lemma PullThenDraw(g: Glow, now: int, deltaDistance: real, displacement: real, root: real, later: int)
    requires 0.0 <= root
    ensures Pulled(g, now, deltaDistance, displacement, root).state != Idle
    ensures Drawn(Pulled(g, now, deltaDistance, displacement, root), later).more
  {
    var r := Pulled(g, now, deltaDistance, displacement, root);
    PullEffect(g, now, deltaDistance, displacement, root);
    UpdateTransitions(r, later);
    DrawEffect(r, later);
  }

  /** After the one last frame of a faded recede, the next draw asks for none. */
  lemma OneLastFrame(g: Glow, now: int, later: int)
    requires Drawn(g, now).more && Drawn(g, now).next.state == Idle
    ensures !Drawn(Drawn(g, now).next, later).more
  {
    DrawEffect(g, now);
    DrawEffect(Drawn(g, now).next, later);
  }
}
