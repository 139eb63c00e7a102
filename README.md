# LauncherEdgeEffect — the overscroll glow controller, in Dafny

`LauncherEdgeEffect` is the launcher's overscroll glow. It is a single-owner
state machine with five states: Idle, Pull, Absorb, Recede and PullDecay.
Three triggers drive it:

- `onPull`: the finger drags content past the edge.
- `onRelease`: the finger lets go.
- `onAbsorb`: a fling hits the edge.

Each trigger starts a *segment*: a start time, a duration, and start and
finish values for the glow's alpha and horizontal scale. Every frame, `draw`
calls `update`. `update` interpolates alpha and scale along the segment with
a decelerating ease. It moves the contact-point displacement halfway toward
its target. Once the segment's time fraction reaches 1 - 0.001, it switches
phase:

- Absorb goes to Recede.
- Pull goes to PullDecay.
- PullDecay goes to Recede.
- Recede goes to Idle.

`draw` then lets a receding glow whose scale has reached zero go idle. In
that case it still asks the host for one last frame. `setSize` derives the
glow's radius, bounds and base scale from the view's size.

The model has three modules:

- **`GlowSpec`** (`glow_spec.dfy`) holds the animation state as a value
  (`Glow`) and the layout as a value (`GlowGeometry`). Each operation is a
  function from the old value to the new one: `Pulled`, `Released`,
  `Absorbed`, `Updated`, `Drawn`, `Sized` and `MaxWidth`. Next to each
  function, one lemma states what it does.
- **`EdgeEffect`** (`launcher_edge_effect.dfy`) is the class
  `LauncherEdgeEffect`. It keeps the source's fields and updates them in
  place, statement by statement as the source does.
  - Each method is proved to leave `Model()` (the animation fields read as a
    `Glow`) equal to the matching `GlowSpec` function applied to the old
    `Model()`.
  - Each method's `modifies` clause names only the fields it writes. The
    layout fields are therefore untouched by the triggers, and the animation
    fields are untouched by `SetSize`.
  - `Valid()` is the bounds invariant. `Finish`, `OnRelease` and `OnAbsorb`
    state that they preserve it. `Update` and `Draw` state that they preserve
    it when the clock `now` is not before the segment's start. `OnPull` does
    not state it (see "## Left out").
- **`GlowProperties`** (`glow_properties.dfy`) proves properties that relate
  several calls:
  - Every state reachable under a clock that never runs backwards keeps
    alpha in [0, 0.5], scale in [0, 1] and segments at most 2000 ms.
  - Absorb ignores the velocity's sign and excess, and a faster fling never
    gives a weaker glow.
  - From any state whose segment is at most 2000 ms long and started no later
    than a time `from`, draws spaced at least 2000 ms apart, the first at least
    2000 ms after `from`, bring the glow to Idle within three frames. Every
    reachable state meets that condition, taking `from` as the last clock
    reading, so every reachable state comes to rest.

The clock is a parameter `now` of every method that reads it. The
interpolator is the decelerating ease 1 - (1 - t)². All arithmetic is on
unbounded reals and integers, apart from two Java-specific behaviours that
are modelled:

- `int` velocity, including `Math.abs` of the most negative `int`.
- The float-to-int casts, as truncation toward zero of in-range values (the
  saturation at ±2^31 and NaN to 0 are not modelled).

## Model

| member | source | states |
|---|---|---|
| GlowSpec.Initial | fcclauncher/src/main/java/com/android/fcclauncher/util/LauncherEdgeEffect.java:92-101 | A new controller is Idle, within the bounds, with displacement and target 0.5 |
| GlowSpec.Trunc | fcclauncher/src/main/java/com/android/fcclauncher/util/LauncherEdgeEffect.java:157 | Java's float-to-int cast: truncation toward zero, as bounds on either side of the real value |
| GlowSpec.JavaAbs | fcclauncher/src/main/java/com/android/fcclauncher/util/LauncherEdgeEffect.java:288 | `Math.abs` on an int is the magnitude, except at -2^31, where it stays negative |
| GlowSpec.PullScale | fcclauncher/src/main/java/com/android/fcclauncher/util/LauncherEdgeEffect.java:239-240 | The pull scale max(0, 1 - 1/root - 0.3)/0.7 lies in [0, 1), and is 0 when root ≤ 1 (including the division by zero at root 0) |
| GlowSpec.PullEffect | fcclauncher/src/main/java/com/android/fcclauncher/util/LauncherEdgeEffect.java:210-248 | A pull always sets the target displacement. During a running decay that is all it changes. Otherwise it sets state Pull, the clock, 167 ms and pull += delta. Alpha rises by 0.8·\|delta\|, capped at 0.5. Start, finish and current values agree. The scale is 0 for a zero pull and otherwise PullScale(root), in [0, 1) |
| GlowSpec.ReleaseEffect | fcclauncher/src/main/java/com/android/fcclauncher/util/LauncherEdgeEffect.java:256-274 | A release always zeroes the pull. Outside Pull/PullDecay nothing else changes. Otherwise the state is Recede over 600 ms, from the current alpha and scale to 0 |
| GlowSpec.ClampVelocity | fcclauncher/src/main/java/com/android/fcclauncher/util/LauncherEdgeEffect.java:288 | The clamped velocity lies in [100, 10000] and equals \|v\|, 100 or 10000 according to where \|v\| (Java's abs) falls |
| GlowSpec.AbsorbEffect | fcclauncher/src/main/java/com/android/fcclauncher/util/LauncherEdgeEffect.java:286-309 | An absorb sets state Absorb at now, with duration 0.15 + 0.02·v in (0, 2000]. Alpha runs from 0.3 to a value in [0.3, 0.5]. Scale runs from max(scale, 0) to a value in (0, 1]. The target becomes 0.5. The current alpha, scale, pull and displacement are kept |
| GlowSpec.ElapsedFractionBounds | fcclauncher/src/main/java/com/android/fcclauncher/util/LauncherEdgeEffect.java:455 | The time fraction is at most 1. It is exactly 1 once the duration has passed, and not negative while the clock is past the start |
| GlowSpec.DecelerateBounds | fcclauncher/src/main/java/com/android/fcclauncher/util/LauncherEdgeEffect.java:457 | The ease is at most 1, lies in [0, 1] for t in [0, 1], and reaches 1 at t = 1 |
| GlowSpec.LerpBetween | fcclauncher/src/main/java/com/android/fcclauncher/util/LauncherEdgeEffect.java:459-461 | Interpolation with a fraction in [0, 1] stays between start and finish, in either order, and reaches the finish at 1 |
| GlowSpec.UpdateInterpolates | fcclauncher/src/main/java/com/android/fcclauncher/util/LauncherEdgeEffect.java:452-462 | An update moves the displacement halfway to its target, staying between them. Alpha and scale stay between their segment's start and finish while the clock is not before the start, and reach the finish once the duration has passed. Pull and target are kept |
| GlowSpec.UpdateTransitions | fcclauncher/src/main/java/com/android/fcclauncher/util/LauncherEdgeEffect.java:464-501 | Before the threshold, state and segment stay. After it: Absorb→Recede (600 ms, to 0) and Pull→PullDecay (2000 ms, to 0), each from the current values; PullDecay→Recede and Recede→Idle on the same segment; Idle stays |
| GlowSpec.DrawEffect | fcclauncher/src/main/java/com/android/fcclauncher/util/LauncherEdgeEffect.java:338-378 | Draw leaves what update left, except the state. It goes idle exactly when update left Idle or a Recede with scale 0. It asks for another frame exactly when update did not leave Idle. A frame asked for while going idle is the last frame of a faded recede |
| GlowSpec.SizeEffect | fcclauncher/src/main/java/com/android/fcclauncher/util/LauncherEdgeEffect.java:144-159 | The base scale is at most 1, and exactly 1 when the height is not positive. For positive height it is min(1.5·width/height, 1), positive iff width is. The bounds height is clipped below the height, and the radius is positive iff the height is |
| GlowSpec.ChordRatio | fcclauncher/src/main/java/com/android/fcclauncher/util/LauncherEdgeEffect.java:146-155 | The two chord heights are the radii times (1 - cos), so their ratio is 1.5·width/height |
| GlowSpec.MaxWidth | fcclauncher/src/main/java/com/android/fcclauncher/util/LauncherEdgeEffect.java:447-449 | (int)(w·2 + 0.5) is 2w for w ≥ 0 and 2w + 1 for w < 0 |
| GlowProperties.PullKeepsBounded | fcclauncher/src/main/java/com/android/fcclauncher/util/LauncherEdgeEffect.java:210-248 | A pull keeps alpha in [0, 0.5], scale in [0, 1] and the duration in [0, 2000] |
| GlowProperties.ReleaseKeepsBounded | fcclauncher/src/main/java/com/android/fcclauncher/util/LauncherEdgeEffect.java:256-274 | A release keeps the bounds |
| GlowProperties.AbsorbKeepsBounded | fcclauncher/src/main/java/com/android/fcclauncher/util/LauncherEdgeEffect.java:286-309 | An absorb keeps the bounds |
| GlowProperties.UpdateKeepsBounded | fcclauncher/src/main/java/com/android/fcclauncher/util/LauncherEdgeEffect.java:452-502 | An update at a time not before the segment's start keeps the bounds |
| GlowProperties.StepKeepsBounded | fcclauncher/src/main/java/com/android/fcclauncher/util/LauncherEdgeEffect.java:176-502 | Any one call keeps the bounds and leaves the segment starting no later than its clock reading |
| GlowProperties.RunKeepsBounded | fcclauncher/src/main/java/com/android/fcclauncher/util/LauncherEdgeEffect.java:176-502 | Any sequence of calls under a clock that never runs backwards keeps the bounds, and leaves the current segment starting no later than the last clock reading |
| GlowProperties.ReachableIsBounded | fcclauncher/src/main/java/com/android/fcclauncher/util/LauncherEdgeEffect.java:92-101 | Every state a new controller reaches, with the clock starting at 0 or later and never running backwards, is within the bounds |
| GlowProperties.AbsorbIgnoresSignAndExcess | fcclauncher/src/main/java/com/android/fcclauncher/util/LauncherEdgeEffect.java:286-288 | absorb(-v) = absorb(v) for every v but -2^31, and absorb(clamp(v)) = absorb(v) |
| GlowProperties.AbsorbMostNegative | fcclauncher/src/main/java/com/android/fcclauncher/util/LauncherEdgeEffect.java:288 | absorb(-2^31) = absorb(100), because Java's abs leaves it negative, while absorb(-2^31 + 1) = absorb(10000) |
| GlowProperties.AbsorbResponseMonotone | fcclauncher/src/main/java/com/android/fcclauncher/util/LauncherEdgeEffect.java:291-307 | A larger clamped velocity never gives a smaller scale finish, alpha finish or duration |
| GlowProperties.QuadraticMonotone | fcclauncher/src/main/java/com/android/fcclauncher/util/LauncherEdgeEffect.java:304 | The quadratic scale finish, with its integer division v/100, is monotone in v |
| GlowProperties.LateDrawProgresses | fcclauncher/src/main/java/com/android/fcclauncher/util/LauncherEdgeEffect.java:464-501 | A draw after the segment's end moves the state strictly toward Idle and either keeps the current segment or starts a new one at the draw |
| GlowProperties.LateDrawsReachIdle | fcclauncher/src/main/java/com/android/fcclauncher/util/LauncherEdgeEffect.java:452-502 | From a state whose segment is at most 2000 ms long and started no later than `from`, draws spaced at least 2000 ms apart (the first 2000 ms after `from`) never move away from Idle, and reach it within Rank(state) ≤ 3 draws |
| GlowProperties.ReachableComesToRest | fcclauncher/src/main/java/com/android/fcclauncher/util/LauncherEdgeEffect.java:452-502 | After any calls on a new controller under a clock that starts at 0 or later and never runs backwards, three draws spaced 2000 ms apart, the first 2000 ms after the last clock reading, leave the glow Idle |
| GlowProperties.PullThenDraw | fcclauncher/src/main/java/com/android/fcclauncher/util/LauncherEdgeEffect.java:210-248 | After any pull the glow is not idle (isFinished is false), and the next draw, at whatever time, asks for another frame |
| GlowProperties.ReleaseThenLateDraw | fcclauncher/src/main/java/com/android/fcclauncher/util/LauncherEdgeEffect.java:256-274 | After releasing a pull, a draw 600 ms later or more leaves the glow idle and asks for no more frames |
| GlowProperties.OneLastFrame | fcclauncher/src/main/java/com/android/fcclauncher/util/LauncherEdgeEffect.java:372-378 | After the one last frame of a faded recede, the next draw asks for none |
| EdgeEffect.LauncherEdgeEffect.constructor | fcclauncher/src/main/java/com/android/fcclauncher/util/LauncherEdgeEffect.java:92-101 | The fields start as Initial(), which is Valid(), with empty bounds |
| EdgeEffect.LauncherEdgeEffect.SetSize | fcclauncher/src/main/java/com/android/fcclauncher/util/LauncherEdgeEffect.java:144-159 | The layout becomes Sized(width, height) and the animation fields are unchanged |
| EdgeEffect.LauncherEdgeEffect.IsFinished | fcclauncher/src/main/java/com/android/fcclauncher/util/LauncherEdgeEffect.java:168-170 | Holds exactly when the state of the modelled glow is Idle |
| EdgeEffect.LauncherEdgeEffect.Finish | fcclauncher/src/main/java/com/android/fcclauncher/util/LauncherEdgeEffect.java:168-178 | Afterwards IsFinished() holds, only the state changed (to Idle), and Valid() is kept |
| EdgeEffect.LauncherEdgeEffect.OnPull | fcclauncher/src/main/java/com/android/fcclauncher/util/LauncherEdgeEffect.java:210-248 | The fields become Pulled(old state, now, delta, displacement, root), given the host's square root of \|pull\|·width, and the layout is not written |
| EdgeEffect.LauncherEdgeEffect.OnPullCentred | fcclauncher/src/main/java/com/android/fcclauncher/util/LauncherEdgeEffect.java:193-195 | The one-argument pull is a pull at displacement 0.5 |
| EdgeEffect.LauncherEdgeEffect.OnRelease | fcclauncher/src/main/java/com/android/fcclauncher/util/LauncherEdgeEffect.java:256-274 | The fields become Released(old state, now), and Valid() is kept |
| EdgeEffect.LauncherEdgeEffect.OnAbsorb | fcclauncher/src/main/java/com/android/fcclauncher/util/LauncherEdgeEffect.java:286-309 | The fields become Absorbed(old state, now, velocity), and Valid() is kept |
| EdgeEffect.LauncherEdgeEffect.Update | fcclauncher/src/main/java/com/android/fcclauncher/util/LauncherEdgeEffect.java:452-502 | The fields become Updated(old state, now), and Valid() is kept when the clock is not before the segment's start |
| EdgeEffect.LauncherEdgeEffect.Draw | fcclauncher/src/main/java/com/android/fcclauncher/util/LauncherEdgeEffect.java:338-378 | The fields and the returned flag are Drawn(old state, now), and Valid() is kept as for Update |
| EdgeEffect.LauncherEdgeEffect.GetMaxWidth | fcclauncher/src/main/java/com/android/fcclauncher/util/LauncherEdgeEffect.java:447-449 | The widest the glow is drawn is twice the bounds width (plus 1 for a negative width, from truncation) |

## Left out

- The canvas work in `draw` is not modelled. This covers the centre and translation arithmetic, `canvas.scale`, `drawCircle` and the paint alpha (lines 343-364). Only the state change and the returned flag are modelled.
- The constructor's resource and drawable loading, `mMaxEffectHeight`, `setColor`/`getColor` and the `Log` debug lines are not modelled; they are platform plumbing.
- The commented-out vertical-axis and drawable-based code is dead and is not modelled.
- `mGlowScaleY` and its start and finish values are not modelled. `update` interpolates them, but nothing reads them afterwards, and their start and finish are only ever 0.
- Single-precision float rounding, NaN and infinities are not modelled; all quantities are reals.
- The clock `AnimationUtils.currentAnimationTimeMillis()` is the parameter `now`. The second clock read inside `update` (lines 468 and 483) uses the same reading.
- `Math.sqrt` in the pull scale is not computed. The caller passes `root`, required to be the square root of |pull|·width; for a negative width the source gets NaN, which is not modelled.
- `Math.sin`/`Math.cos` of π/6 are the constants `Sin` = 0.5 and `Cos`, the single-precision value the source stores.
- GlowSpec.ElapsedFraction: a zero duration (no trigger yet) counts as a finished segment (t = 1). The source gets +Infinity, clamped to 1, when the clock is past the start, and NaN or -Infinity when it is not; those are not modelled.
- GlowSpec.ElapsedFraction: the time fraction is capped at 1 but not floored at 0, as in the source. A clock reading before the segment's start gives a negative fraction. The bounds lemmas therefore assume the clock is not before the start.
- GlowSpec.Trunc: does not model the cast's saturation at ±2^31 or NaN becoming 0, because the model's reals have no NaN and the only int-range-sensitive use, MaxWidth, is already limited below.
- GlowSpec.MaxWidth: the float addition width·2 + 0.5 is taken as exact, which single precision only guarantees for widths below 2^22.
- The absorb duration `0.15 + 0.02·v` mixes units with the millisecond durations of the other segments. It is kept as written.
- EdgeEffect.LauncherEdgeEffect.OnPull: its contract ties the new fields to `Pulled` but does not restate `Valid()`. That a pull keeps the bounds is proved about `Pulled` by GlowProperties.PullKeepsBounded.
