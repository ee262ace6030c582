/** How fine a chart may be: the resolution ladder of the device series and the grain of the RF history. */
module PointBudget {
  import opened Options
  import opened Arith

  /** Seconds per step, finest first: `5s`, `15s`, `1m`, `5m`, `15m`, `1h`, `1d`. */
  const LADDER: seq<nat> := [5, 15, 60, 300, 900, 3600, 86400]
  const LAST := 6
  const TARGET_BUCKETS := 2000
  const HARD_MAX_BUCKETS := 50_000

  type Step = i: nat | i <= LAST

  /** Windows are measured in milliseconds, so that the quotients of the source stay exact. */
  predicate Fits(span: nat, step: Step) {
    span <= TARGET_BUCKETS * 1000 * LADDER[step]
  }

  predicate WindowTooLarge(span: nat, step: Step) {
    span > HARD_MAX_BUCKETS * 1000 * LADDER[step]
  }

  /** The step the clamp is for: not finer than asked, the first that fits, else the coarsest. */
  ghost predicate IsClamp(asked: Step, span: nat, step: Step) {
    asked <= step && (Fits(span, step) || step == LAST) && forall i: Step :: asked <= i < step ==> !Fits(span, i)
  }

  method ClampResolution(asked: Step, span: nat) returns (step: Step)
    ensures IsClamp(asked, span, step)
  {
    step := asked;
    while step < LAST && !Fits(span, step)
      invariant asked <= step && forall i: Step :: asked <= i < step ==> !Fits(span, i)
      decreases LAST - step
    {
      step := step + 1;
    }
  }

  /** The first step of at least `minSeconds`, or the coarsest. */
  method CoarseEnough(minSeconds: nat) returns (step: Step)
    ensures LADDER[step] >= minSeconds || step == LAST
    ensures forall i: Step :: i < step ==> LADDER[i] < minSeconds
  {
    step := 0;
    while step < LAST && LADDER[step] < minSeconds
      invariant forall i: Step :: i < step ==> LADDER[i] < minSeconds
      decreases LAST - step
    {
      step := step + 1;
    }
  }

  /**
   * `None` is the `window_too_large` answer. It is given exactly for windows over 50000 days,
   * whatever was requested and whatever the minimum grain.
   */
  method ResolveResolution(requested: Option<Step>, fallback: Step, span: nat, minSeconds: nat)
    returns (step: Option<Step>)
    ensures step.None? <==> span > 50_000 * 86_400_000
    ensures step.Some? ==>
              var asked := if requested.Some? then requested.value else fallback;
              asked <= step.value
              && (Fits(span, step.value) || step.value == LAST)
              && (LADDER[step.value] >= minSeconds || step.value == LAST)
              && forall i: Step :: asked <= i < step.value ==> !Fits(span, i) || LADDER[i] < minSeconds
  {
    var asked := if requested.Some? then requested.value else fallback;
    var chosen := ClampResolution(asked, span);
    var clamped := chosen;
    if LADDER[chosen] < minSeconds {
      chosen := CoarseEnough(minSeconds);
      LadderAscends();
    }
    LadderAscends();
    if WindowTooLarge(span, chosen) {
      return None;
    }
    forall i: Step | asked <= i < chosen
      ensures !Fits(span, i) || LADDER[i] < minSeconds
    {
    }
    return Some(chosen);
  }

  lemma LadderAscends()
    ensures forall i: Step, j: Step :: i < j ==> LADDER[i] < LADDER[j]
  {
  }

  /** There is one clamp, so the loop's result is a function of its arguments. */
  lemma ClampUnique(asked: Step, span: nat, a: Step, b: Step)
    requires IsClamp(asked, span, a) && IsClamp(asked, span, b)
    ensures a == b
  {
  }

  /** Clamping again changes nothing. */
  lemma ClampIdempotent(asked: Step, span: nat, once: Step, twice: Step)
    requires IsClamp(asked, span, once) && IsClamp(once, span, twice)
    ensures twice == once
  {
  }

  /** Wider windows are never drawn finer, and a coarser request never ends finer. */
  lemma ClampMonotone(asked: Step, span: nat, step: Step, asked': Step, span': nat, step': Step)
    requires asked <= asked' && span <= span'
    requires IsClamp(asked, span, step) && IsClamp(asked', span', step')
    ensures step <= step'
  {
    assert asked <= step' < step ==> !Fits(span, step');
  }

  /** Fitting is upward closed on the ladder, so the clamp is the finest admissible step. */
  lemma ClampFinest(asked: Step, span: nat, step: Step, other: Step)
    requires IsClamp(asked, span, step) && asked <= other && Fits(span, other)
    ensures step <= other && Fits(span, step)
  {
    LadderAscends();
  }

  /** The widest window each step draws in 2000 points, in milliseconds, and the widest one that is drawn at all. */
  lemma StepsFit(span: nat)
    ensures Fits(span, 0) <==> span <= 10_000_000
    ensures Fits(span, 1) <==> span <= 30_000_000
    ensures Fits(span, 2) <==> span <= 120_000_000
    ensures Fits(span, 3) <==> span <= 600_000_000
    ensures Fits(span, 4) <==> span <= 1_800_000_000
    ensures Fits(span, 5) <==> span <= 7_200_000_000
    ensures Fits(span, 6) <==> span <= 172_800_000_000
    ensures WindowTooLarge(span, 6) <==> span > 4_320_000_000_000
  {
  }

  /** A step fits exactly when the buckets of its width that cover the window are at most 2000. */
  lemma FitsIff(span: nat, step: Step)
    ensures Fits(span, step) <==> Ceil(span, 1000 * LADDER[step]) <= 2000
    ensures WindowTooLarge(span, step) <==> Ceil(span, 1000 * LADDER[step]) > 50_000
  {
    var d := 1000 * LADDER[step];
    DivisionBounds(span + d - 1, d);
    ScaleOrder(Ceil(span, d), 2000, d);
    ScaleOrder(2001, Ceil(span, d), d);
    ScaleOrder(Ceil(span, d), 50_000, d);
    ScaleOrder(50_001, Ceil(span, d), d);
  }

  // ── RF history ─────────────────────────────────────────────────────────

  function Ceil(n: nat, d: nat): nat
    requires d > 0
  {
    (n + d - 1) / d
  }

  /** `Math.max(300, Math.ceil(span / 2000 / 300) * 300)` for a span in milliseconds. */
  function RfGrain(span: nat): nat {
    var g := Ceil(span, TARGET_BUCKETS * 300 * 1000) * 300;
    if g > 300 then g else 300
  }

  /** The grain is the least positive multiple of 300 s that keeps the chart within 2000 points. */
  lemma RfGrainLeast(span: nat)
    ensures RfGrain(span) > 0 && RfGrain(span) % 300 == 0
    ensures span <= 2000 * 1000 * RfGrain(span)
    ensures forall k: nat :: k > 0 && span <= 2000 * 1000 * (300 * k) ==> RfGrain(span) <= 300 * k
  {
    var unit := TARGET_BUCKETS * 300 * 1000;
    var c := Ceil(span, unit);
    assert c * unit >= span;
    assert span > 0 ==> (c - 1) * unit < span;
  }
}
