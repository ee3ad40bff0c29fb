/**
 * Allowance windows and their pacing arithmetic (internal/agentaccounts/types.go
 * and pace.go). Times are nanoseconds; ratios are exact reals.
 */
module Pace {
  import opened Wrappers

  const MINUTE: int := 60_000_000_000
  const FRESH: int := 10 * MINUTE
  const MAX_INT64: int := 0x7FFF_FFFF_FFFF_FFFF

  datatype Window = Window(
    id: string, accountId: string, startsAt: int, endsAt: int, unit: string,
    allowance: int, used: int, reserved: int, paceModel: string, burstRatio: real,
    usageCeiling: Option<int>,
    readAt: Option<int>,        // set for measured windows
    allowed: bool, retired: bool,
    kind: string, bucket: string, source: string,
    hold: int,                  // learned hold of a measured window
    refreshRun: Option<string>,
    budget: Option<real>, share: Option<real>, reserveUntil: Option<int>,
    pairingVerification: bool, recoveryPermits: nat)

  function Min(a: real, b: real): real { if a < b then a else b }

  function MaxInt(a: int, b: int): int { if a > b then a else b }

  /** One-run grants that stand for unknown vendor usage. */
  predicate Synthetic(w: Window) { w.kind == "refresh" || w.kind == "blind" }

  function ElapsedFraction(now: int, start: int, end: int): real {
    var span := end - start;
    if span <= 0 then 0.0
    else
      var f := (now - start) as real / span as real;
      if f < 0.0 then 0.0 else if f > 1.0 then 1.0 else f
  }

  function Curve(model: string, f: real): Option<real> {
    if model == "steady" then Some(f)
    else if model == "frontload" then Some(1.0 - (1.0 - f) * (1.0 - f))
    else if model == "unrestricted" then Some(1.0)
    else None
  }

  function PaceFraction(model: string, f: real, burst: real): real {
    match Curve(model, f)
    case None => 0.0
    case Some(pace) =>
      var sum := pace + burst;
      if sum < 0.0 then 0.0 else if sum > 1.0 then 1.0 else sum
  }

  function AllowedUnits(allowance: int, fraction: real): int {
    if allowance <= 0 || fraction <= 0.0 then 0
    else if fraction >= 1.0 then allowance
    else (fraction * allowance as real + 0.000000001).Floor
  }

  function AddUsage(used: int, reserved: int, estimate: int): Option<int> {
    if used < 0 || reserved < 0 || estimate < 0 then None
    else if used > MAX_INT64 - reserved then None
    else if used + reserved > MAX_INT64 - estimate then None
    else Some(used + reserved + estimate)
  }

  function WindowPaceFraction(w: Window, now: int): real {
    if w.budget.Some? then 1.0
    else PaceFraction(w.paceModel, ElapsedFraction(now, w.startsAt, w.endsAt), w.burstRatio)
  }

  /** What a measured window asks beyond its numbers. */
  predicate MeasuredGate(w: Window, now: int, estimate: int) {
    w.readAt.None? ||
    (&& w.allowed && !w.retired
     && !((w.kind == "refresh" || (now - w.readAt.value > FRESH && w.source != "estimate"))
          && (w.refreshRun.Some? || w.reserved > 0 || estimate > 1))
     && (w.budget.Some? ==> (w.reserved + estimate) as real <= w.budget.value))
  }

  /** `fits`: the projected use when the estimate can be held now. */
  function Fits(w: Window, now: int, estimate: int): Option<int> {
    if estimate < 1 || now >= w.endsAt || now < w.startsAt then None
    else
      var projected := AddUsage(w.used, w.reserved, estimate);
      if projected.None? || projected.value > w.allowance
         || (w.usageCeiling.Some? && projected.value > w.usageCeiling.value) then None
      else if !MeasuredGate(w, now, estimate) then None
      else if projected.value > AllowedUnits(w.allowance, WindowPaceFraction(w, now)) then None
      else projected
  }

  /** A reading that stands for no fresh one: a refresh grant, or a measurement past ten minutes. */
  predicate Stale(w: Window, now: int) {
    w.readAt.Some? && (w.kind == "refresh" || (w.source != "estimate" && w.readAt.value + 600_000_000_000 < now))
  }

  /**
   * An estimate fits exactly when it is positive, the window is open, nothing
   * stored is negative, and with all that is used and reserved it stays within
   * the allowance, the ceiling and the pace of the moment; of a measured window
   * also, when the vendor allows it, within the paced budget, and on a stale one
   * only as the single unit of nobody's refresh.
   */
  lemma {:induction false} FitsExactly(w: Window, now: int, estimate: int)
    ensures var whole := w.used + w.reserved + estimate;
            var open := w.startsAt <= now && now < w.endsAt;
            var measured := w.readAt != None;
            && (Fits(w, now, estimate) != None ==> Fits(w, now, estimate) == Some(whole))
            && (Fits(w, now, estimate) != None <==>
                  && estimate > 0 && open && w.used >= 0 && w.reserved >= 0 && whole <= 0x7FFF_FFFF_FFFF_FFFF
                  && whole <= w.allowance && (w.usageCeiling != None ==> whole <= w.usageCeiling.value)
                  && (measured ==> w.allowed && !w.retired && (w.budget != None ==> (w.reserved + estimate) as real <= w.budget.value))
                  && (Stale(w, now) ==> w.refreshRun == None && w.reserved == 0 && estimate == 1)
                  && whole <= AllowedUnits(w.allowance,
                                           if w.budget != None then 1.0
                                           else PaceFraction(w.paceModel, ElapsedFraction(now, w.startsAt, w.endsAt), w.burstRatio)))
  {
    hide AllowedUnits, PaceFraction, ElapsedFraction;
  }

  // -------------------------------------------------------- monotone pacing

  lemma {:induction false} ElapsedGrows(t: int, u: int, start: int, end: int)
    requires t <= u
    ensures 0.0 <= ElapsedFraction(t, start, end) <= ElapsedFraction(u, start, end) <= 1.0
  {
    if end > start {
      var span := (end - start) as real;
      Divide((t - start) as real, (u - start) as real, span);
    }
  }

  lemma {:induction false} Divide(a: real, b: real, d: real)
    requires a <= b && d > 0.0
    ensures a / d <= b / d
  {
    var q := b / d - a / d;
    assert q * d == b - a;
    if q < 0.0 { NegativeTimes(q, d); }
  }

  lemma {:induction false} NegativeTimes(q: real, d: real)
    requires q < 0.0 && d > 0.0
    ensures q * d < 0.0
  {}

  lemma {:induction false} Square(a: real, b: real)
    requires 0.0 <= a <= b
    ensures a * a <= b * b
  {
    assert b * b - a * a == (b - a) * (b + a);
    Product(b - a, b + a);
  }

  lemma {:induction false} Product(a: real, b: real)
    requires 0.0 <= a && 0.0 <= b
    ensures 0.0 <= a * b
  {}

  /** A later fraction never paces lower, on every curve and with any burst. */
  lemma {:induction false} PaceGrows(model: string, f: real, g: real, burst: real)
    requires 0.0 <= f <= g <= 1.0
    ensures 0.0 <= PaceFraction(model, f, burst) <= PaceFraction(model, g, burst) <= 1.0
  {
    Square(1.0 - g, 1.0 - f);
  }

  /**
   * The curves: steady allows the elapsed share, frontload leaves the square of
   * what is left and so never less than steady, unrestricted all of it, and an
   * unknown model nothing, whatever the burst.
   */
  lemma {:induction false} Curves(f: real, burst: real, model: string)
    requires 0.0 <= f <= 1.0 && 0.0 <= burst
    ensures PaceFraction("steady", f, 0.0) == f
    ensures 1.0 - PaceFraction("frontload", f, 0.0) == (1.0 - f) * (1.0 - f) && PaceFraction("frontload", f, 0.0) >= f
    ensures PaceFraction("unrestricted", f, burst) == 1.0
    ensures model != "steady" && model != "frontload" && model != "unrestricted" ==> PaceFraction(model, f, burst) == 0.0
    ensures PaceFraction("steady", f, burst) == Min(1.0, f + burst)
    ensures PaceFraction("frontload", f, burst) == Min(1.0, PaceFraction("frontload", f, 0.0) + burst)
  {
    var left := 1.0 - f;
    Product(left, left);
    Product(f, left);
    assert left * left + f * left == left;
  }

  /** The elapsed share: of an interval, what has passed of it, between none and all; of an empty one, none. */
  lemma {:induction false} ElapsedTells(now: int, start: int, end: int)
    ensures var f := ElapsedFraction(now, start, end);
            && (end <= start || now <= start ==> f == 0.0)
            && (start < end <= now ==> f == 1.0)
            && (start <= now <= end && start < end ==> f * (end - start) as real == (now - start) as real)
  {
    if start < end {
      var span := (end - start) as real;
      var f := (now - start) as real / span;
      assert f * span == (now - start) as real;
      if now <= start { Divide((now - start) as real, 0.0, span); } else { Divide(0.0, (now - start) as real, span); }
      if now <= end { Divide((now - start) as real, span, span); } else { Divide(span, (now - start) as real, span); }
    }
  }

  /** The units of a share: whole ones, up to a billionth more than it, of an allowance there is. */
  lemma {:induction false} UnitsTell(allowance: int, fraction: real)
    ensures var units := AllowedUnits(allowance, fraction);
            && (allowance <= 0 || fraction <= 0.0 ==> units == 0) && (allowance > 0 && fraction >= 1.0 ==> units == allowance)
            && (allowance > 0 && 0.0 < fraction < 1.0 ==>
                  units as real <= fraction * allowance as real + 0.000000001 < units as real + 1.0)
  {}

  /** The largest whole number within the rounding allowance. */
  function Whole(x: real): int { (x + 0.000000001).Floor }

  lemma {:induction false} WholeGrows(x: real, y: real)
    requires x <= y
    ensures Whole(x) <= Whole(y)
  {}

  lemma {:induction false} WholeWithin(x: real, n: int)
    requires 0.0 <= x < n as real
    ensures 0 <= Whole(x) <= n
  {}

  function Part(f: real, allowance: int): real { f * allowance as real }

  lemma {:induction false} PartWithin(f: real, allowance: int)
    requires 0.0 <= f < 1.0 && allowance > 0
    ensures 0.0 <= Part(f, allowance) < allowance as real
  {
    Product(f, allowance as real);
    StrictScale(f, allowance as real);
  }

  lemma {:induction false} PartGrows(f: real, g: real, allowance: int)
    requires f <= g && allowance > 0
    ensures Part(f, allowance) <= Part(g, allowance)
  {
    Scale(f, g, allowance as real);
  }

  lemma {:induction false} InteriorUnits(allowance: int, f: real)
    requires allowance > 0 && 0.0 < f < 1.0
    ensures AllowedUnits(allowance, f) == Whole(Part(f, allowance))
  {}

  lemma {:induction false} EdgeUnits(allowance: int, f: real)
    requires allowance <= 0 || f <= 0.0 || f >= 1.0
    ensures AllowedUnits(allowance, f) == if allowance <= 0 || f <= 0.0 then 0 else allowance
  {}

  lemma {:induction false} AllowedWithin(allowance: int, f: real)
    requires 0.0 <= f <= 1.0
    ensures 0 <= AllowedUnits(allowance, f) <= MaxInt(allowance, 0)
  {
    hide AllowedUnits, Whole, Part;
    if allowance <= 0 || f <= 0.0 || f >= 1.0 {
      EdgeUnits(allowance, f);
    } else {
      InteriorUnits(allowance, f);
      PartWithin(f, allowance);
      WholeWithin(Part(f, allowance), allowance);
    }
  }

  lemma {:induction false} AllowedGrows(allowance: int, f: real, g: real)
    requires 0.0 <= f <= g <= 1.0
    ensures 0 <= AllowedUnits(allowance, f) <= AllowedUnits(allowance, g) <= MaxInt(allowance, 0)
  {
    hide AllowedUnits, Whole, Part;
    AllowedWithin(allowance, f);
    AllowedWithin(allowance, g);
    if allowance <= 0 || f <= 0.0 {
      EdgeUnits(allowance, f);
    } else if g >= 1.0 {
      EdgeUnits(allowance, g);
    } else {
      InteriorUnits(allowance, f);
      InteriorUnits(allowance, g);
      PartGrows(f, g, allowance);
      WholeGrows(Part(f, allowance), Part(g, allowance));
    }
  }

  lemma {:induction false} Scale(f: real, g: real, a: real)
    requires f <= g && 0.0 <= a
    ensures f * a <= g * a
  {
    Product(g - f, a);
    assert (g - f) * a == g * a - f * a;
  }

  lemma {:induction false} StrictScale(f: real, a: real)
    requires f < 1.0 && a > 0.0
    ensures f * a < a
  {
    NegativeTimes(f - 1.0, a);
    assert (f - 1.0) * a == f * a - a;
  }

  // ---------------------------------------------- a manual window over time

  datatype PaceStep = ClockTick(now: int) | HoldUnits(estimate: int) | ReturnUnits(units: int)

  datatype Paced = Paced(window: Window, now: int)

  /** What the binding gate, the unwind and the clock allow inside the window. */
  ghost predicate PaceStepAllowed(s: Paced, step: PaceStep) {
    match step
    case ClockTick(now) => s.now <= now < s.window.endsAt
    case HoldUnits(estimate) => Fits(s.window, s.now, estimate).Some?
    case ReturnUnits(units) => 1 <= units <= s.window.reserved
  }

  function PaceAdvance(s: Paced, step: PaceStep): Paced {
    match step
    case ClockTick(now) => s.(now := now)
    case HoldUnits(estimate) => s.(window := s.window.(reserved := s.window.reserved + estimate))
    case ReturnUnits(units) => s.(window := s.window.(reserved := s.window.reserved - units))
  }

  ghost predicate PaceRun(s: Paced, steps: seq<PaceStep>, t: Paced)
    decreases |steps|
  {
    if steps == [] then s == t
    else PaceStepAllowed(s, steps[0]) && PaceRun(PaceAdvance(s, steps[0]), steps[1..], t)
  }

  /** Use and reservations are within what the current moment allows. */
  ghost predicate WithinPace(s: Paced) {
    && s.window.startsAt <= s.now < s.window.endsAt
    && 0 <= s.window.reserved
    && s.window.used + s.window.reserved <= AllowedUnits(s.window.allowance, WindowPaceFraction(s.window, s.now))
  }

  lemma {:induction false} PaceStepKeeps(s: Paced, step: PaceStep)
    requires WithinPace(s) && PaceStepAllowed(s, step)
    ensures WithinPace(PaceAdvance(s, step))
  {
    match step
    case ClockTick(now) =>
      var w := s.window;
      ElapsedGrows(s.now, now, w.startsAt, w.endsAt);
      var f, g := ElapsedFraction(s.now, w.startsAt, w.endsAt), ElapsedFraction(now, w.startsAt, w.endsAt);
      PaceGrows(w.paceModel, f, g, w.burstRatio);
      AllowedGrows(w.allowance, WindowPaceFraction(w, s.now), WindowPaceFraction(w, now));
    case HoldUnits(estimate) =>
    case ReturnUnits(units) =>
  }

  /**
   * Over any run of approved reservations, unwinds and clock ticks inside the
   * window, a window within its pace stays within it, for every curve and burst.
   */
  lemma {:induction false} PacedRunsStayWithinPace(s: Paced, steps: seq<PaceStep>, t: Paced)
    requires WithinPace(s) && PaceRun(s, steps, t)
    ensures WithinPace(t)
    ensures t.window.used + t.window.reserved <= MaxInt(t.window.allowance, 0)
    decreases |steps|
  {
    if steps == [] {
      var w := t.window;
      ElapsedGrows(t.now, t.now, w.startsAt, w.endsAt);
      var f := ElapsedFraction(t.now, w.startsAt, w.endsAt);
      PaceGrows(w.paceModel, f, f, w.burstRatio);
      AllowedGrows(w.allowance, WindowPaceFraction(w, t.now), WindowPaceFraction(w, t.now));
    } else {
      PaceStepKeeps(s, steps[0]);
      PacedRunsStayWithinPace(PaceAdvance(s, steps[0]), steps[1..], t);
    }
  }
}
