/**
 * The dissolve effect of the scan preview: the timeline that turns the
 * elapsed time of the repeating 8-second custom action into the reveal parameter `at`,
 * and the per-fragment test that keeps a fragment whose noise value is below it.
 */
module RevealTimeline {

  import opened Geometry

  /** Duration of one run of the dissolve custom action; the action is repeated forever. */
  const Period: real := 8.0

  /** The local constant `A` of the completion handler: the rotation time, also used as the
      lower bound of the fourth branch of the timeline. */
  const HoldStart: real := 4.5

  /** The reveal parameter for the elapsed time `e` of one run of the action, with the
      branches of the closure in their order. The last two branches both give 1. */
  function Reveal(e: real): (at: real)
    ensures 0.0 <= e ==> 0.0 <= at <= 1.0
    ensures e <= 0.0 ==> at <= 0.0
  {
    if e < 0.2 then
      (e / 0.2) * 0.1
    else if 0.2 <= e && e < 3.5 then
      0.1 + 0.2 * (e - 0.2) / (3.5 - 0.2)
    else if 3.5 <= e && e < 4.5 then
      0.30 + 0.70 * (e - 3.5) / (4.5 - 3.5)
    else if HoldStart < e && e < 7.0 then
      1.0
    else
      1.0
  }

  /** The values at the segment boundaries and at the end of a run. */
  lemma RevealBreakpoints()
    ensures Reveal(0.0) == 0.0
    ensures Reveal(0.2) == 0.1
    ensures Reveal(3.5) == 0.3
    ensures Reveal(4.5) == 1.0
    ensures Reveal(7.0) == 1.0 && Reveal(Period) == 1.0
  {
  }

  /** From 4.5 on the mesh is fully revealed: at 4.5 itself none of the first four branches
      fires and the final `else` gives 1, and so does every later branch. */
  lemma RevealHeldAtOne(e: real)
    requires HoldStart <= e
    ensures Reveal(e) == 1.0
  {
  }

  /** The reveal parameter never decreases as time goes on. */
  lemma RevealMonotone(e1: real, e2: real)
    requires e1 <= e2
    ensures Reveal(e1) <= Reveal(e2)
  {
  }

  /** Continuity, in the strong form of a Lipschitz bound: the steepest segment is the
      3.5..4.5 ramp, which rises 0.7 per second. In particular each ramp ends at the value
      the next segment starts with, at 0.2, 3.5 and 4.5. */
  lemma RevealLipschitz(e1: real, e2: real)
    requires e1 <= e2
    ensures Reveal(e2) - Reveal(e1) <= 0.7 * (e2 - e1)
  {
  }

  /** The number of completed runs of the repeated action at global time `time`. */
  function Iteration(time: real): int
  {
    (time / Period).Floor
  }

  /** The elapsed time that the current run of the repeated action sees at global time `time`. */
  function LoopElapsed(time: real): (e: real)
    ensures 0.0 <= e < Period
    ensures time == Period * Iteration(time) as real + e
  {
    time - Period * Iteration(time) as real
  }

  /** The reveal parameter written to the material at global time `time`. */
  function LoopReveal(time: real): (at: real)
    ensures 0.0 <= at <= 1.0
  {
    Reveal(LoopElapsed(time))
  }

  /** The repeated action has period 8: one run later the parameter is the same. */
  lemma LoopRevealPeriodic(time: real)
    ensures Iteration(time + Period) == Iteration(time) + 1
    ensures LoopElapsed(time + Period) == LoopElapsed(time)
    ensures LoopReveal(time + Period) == LoopReveal(time)
  {
    var k := Iteration(time);
    assert k as real <= time / Period < k as real + 1.0;
    assert (time + Period) / Period == time / Period + 1.0;
  }

  /** Within one run the parameter does not decrease; every run starts again at 0. */
  lemma LoopRevealMonotoneWithinRun(t1: real, t2: real)
    requires t1 <= t2 && Iteration(t1) == Iteration(t2)
    ensures LoopElapsed(t1) <= LoopElapsed(t2)
    ensures LoopReveal(t1) <= LoopReveal(t2)
  {
    RevealMonotone(LoopElapsed(t1), LoopElapsed(t2));
  }

  /** Every run starts hidden (at 0) and is fully revealed from 4.5 seconds into the run. */
  lemma LoopRevealRestarts(k: int, e: real)
    requires 0.0 <= e < Period
    ensures Iteration(Period * k as real + e) == k
    ensures LoopReveal(Period * k as real + e) == Reveal(e)
    ensures e == 0.0 ==> LoopReveal(Period * k as real) == 0.0
    ensures HoldStart <= e ==> LoopReveal(Period * k as real + e) == 1.0
  {
    var time := Period * k as real + e;
    assert time / Period == k as real + e / Period;
    assert 0.0 <= e / Period < 1.0;
  }

  /** The fragment test: the noise value is mapped from [-1, 1] onto [0, 1], and the fragment
      is kept while that value does not exceed the reveal parameter. The noise value itself is
      an input. */
  predicate Visible(noise: real, t: real): (keep: bool)
    ensures keep <==> (noise + 1.0) * 0.5 <= t
    ensures keep <==> noise <= 2.0 * t - 1.0
  {
    !((noise + 1.0) * 0.5 > t)
  }

  /** A fragment kept at some t is kept at every larger t. */
  lemma VisibleMonotone(noise: real, t1: real, t2: real)
    requires t1 <= t2 && Visible(noise, t1)
    ensures Visible(noise, t2)
  {
  }

  /** At full reveal every fragment whose noise is at most 1 is kept; a fragment with noise
      above 1 (the noise is not clamped) is still discarded. */
  lemma VisibleAtFullReveal(noise: real)
    ensures Visible(noise, 1.0) <==> noise <= 1.0
  {
  }

  /** At t = 0 only fragments with noise at most -1 are kept (val at most 0). */
  lemma VisibleAtZero(noise: real)
    ensures Visible(noise, 0.0) <==> noise <= -1.0
  {
  }

  /** Once a fragment appears during a run, it stays visible until the run ends. */
  lemma OnceVisibleStaysVisible(noise: real, t1: real, t2: real)
    requires t1 <= t2 && Iteration(t1) == Iteration(t2)
    requires Visible(noise, LoopReveal(t1))
    ensures Visible(noise, LoopReveal(t2))
  {
    LoopRevealMonotoneWithinRun(t1, t2);
    VisibleMonotone(noise, LoopReveal(t1), LoopReveal(t2));
  }

  /** The point at which the noise is sampled: world position offset by 0.1 and scaled by 450. */
  function NoiseSamplePoint(w: Vec3): (p: Vec3)
    ensures p.x / 450.0 - 0.1 == w.x && p.y / 450.0 - 0.1 == w.y && p.z / 450.0 - 0.1 == w.z
  {
    Vec3((w.x + 0.1) * 450.0, (w.y + 0.1) * 450.0, (w.z + 0.1) * 450.0)
  }
}
