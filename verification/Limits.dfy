/**
 * The Advanced sentence (internal/agentaccounts/limits.go): agents use at most
 * an amount of a unit per period. What the period counts, and the budget a
 * percent rule leaves on each measured window.
 */
module Limits {
  import opened Wrappers
  import opened Pace

  datatype Rule = Rule(amount: int, unit: string)

  datatype Period = Period(start: int, now: int)

  /** One run as the usage queries read it: `total` and `inPeriod` are its telemetry up to now and within the period. */
  datatype RunRow = RunRow(
    id: string, managed: bool, live: bool, startedAt: Option<int>, endedAt: Option<int>,
    estimates: map<string, int>, total: int, inPeriod: int, blind: bool)

  /** One native root as `capacityNativeHeldSQL` reads it. */
  datatype RootRow = RootRow(
    session: string, abandoned: bool, releasedAt: Option<int>, createdAt: int, estimates: map<string, int>)

  /** `measured` is the period's vendor percent; `readings` are the times of measured readings. */
  datatype Usage = Usage(
    runs: seq<RunRow>, roots: seq<RootRow>, measured: real, readings: seq<int>, defaults: map<string, int>)

  function EstimateFor(estimates: map<string, int>, unit: string, fallback: int): int {
    if unit in estimates then estimates[unit] else fallback
  }

  function DefaultFor(u: Usage, unit: string): int { EstimateFor(u.defaults, unit, 0) }

  predicate ReadSince(u: Usage, from: int, now: int) {
    exists r <- u.readings :: from <= r <= now
  }

  function FinishedAt(r: RunRow): Option<int> {
    if r.endedAt.Some? then r.endedAt else r.startedAt
  }

  /** The run has started by now and reaches into the period. */
  predicate InPeriod(r: RunRow, p: Period) {
    r.startedAt.Some? && r.startedAt.value <= p.now && FinishedAt(r).value >= p.start
  }

  /** What one run adds to the period, in whole units. */
  function RunUse(u: Usage, r: RunRow, unit: string, p: Period): int {
    if !r.managed then 0
    else if unit == "percent" then
      (if r.live || (InPeriod(r, p) && r.blind && !ReadSince(u, FinishedAt(r).value, p.now))
       then EstimateFor(r.estimates, unit, 1) else 0)
    else if unit == "runs" then
      (if r.live || (r.startedAt.Some? && p.start <= r.startedAt.value <= p.now) then 1 else 0)
    else
      var estimate := EstimateFor(r.estimates, unit, DefaultFor(u, unit));
      r.inPeriod
      + (if r.live then MaxInt(0, estimate - r.total)
         else if InPeriod(r, p) && r.total == 0 then estimate else 0)
  }

  /** What one native root adds: its saved estimate while occupied, and in the overlapping period after its exit. */
  function RootUse(u: Usage, r: RootRow, unit: string, p: Period): int {
    if r.abandoned then 0
    else if r.releasedAt.None?
         || (unit == "runs" && p.start <= r.createdAt <= p.now)
         || (unit != "runs" && r.createdAt <= p.now && r.releasedAt.value >= p.start
             && (unit != "percent" || !ReadSince(u, r.releasedAt.value, p.now)))
    then EstimateFor(r.estimates, unit, DefaultFor(u, unit))
    else 0
  }

  function RunsUse(u: Usage, runs: seq<RunRow>, unit: string, p: Period, except: string): int {
    if runs == [] then 0
    else
      var r := runs[|runs| - 1];
      RunsUse(u, runs[..|runs| - 1], unit, p, except) + (if r.id != except then RunUse(u, r, unit, p) else 0)
  }

  function RootsUse(u: Usage, roots: seq<RootRow>, unit: string, p: Period, except: string): int {
    if roots == [] then 0
    else
      var r := roots[|roots| - 1];
      RootsUse(u, roots[..|roots| - 1], unit, p, except) + (if r.session != except then RootUse(u, r, unit, p) else 0)
  }

  /** `limitUsed`: the period's use, leaving out the asking run or root. */
  function LimitUsed(u: Usage, unit: string, p: Period, except: string): real {
    (if unit == "percent" then u.measured else 0.0)
    + (RunsUse(u, u.runs, unit, p, except) + RootsUse(u, u.roots, unit, p, except)) as real
  }

  // --------------------------------------------- one row, counted exactly once

  ghost predicate UniqueNames(u: Usage) {
    && (forall i, j :: 0 <= i < j < |u.runs| ==> u.runs[i].id != u.runs[j].id)
    && (forall i, j :: 0 <= i < j < |u.roots| ==> u.roots[i].session != u.roots[j].session)
    && (forall r <- u.runs, s <- u.roots :: r.id != s.session)
    && (forall r <- u.runs :: r.id != "") && (forall s <- u.roots :: s.session != "")
  }

  lemma {:induction false} RunsUseSplit(u: Usage, runs: seq<RunRow>, unit: string, p: Period, except: string)
    requires except != "" && (forall r <- runs :: r.id != "")
    requires forall i, j :: 0 <= i < j < |runs| ==> runs[i].id != runs[j].id
    ensures forall r <- runs :: r.id == except ==>
              RunsUse(u, runs, unit, p, "") == RunsUse(u, runs, unit, p, except) + RunUse(u, r, unit, p)
    ensures (forall r <- runs :: r.id != except) ==> RunsUse(u, runs, unit, p, "") == RunsUse(u, runs, unit, p, except)
  {
    hide RunUse;
    if runs != [] {
      var front, last := runs[..|runs| - 1], runs[|runs| - 1];
      assert runs == front + [last];
      RunsUseSplit(u, front, unit, p, except);
      assert forall r <- front :: r.id != last.id;
    }
  }

  lemma {:induction false} RootsUseSplit(u: Usage, roots: seq<RootRow>, unit: string, p: Period, except: string)
    requires except != "" && (forall r <- roots :: r.session != "")
    requires forall i, j :: 0 <= i < j < |roots| ==> roots[i].session != roots[j].session
    ensures forall r <- roots :: r.session == except ==>
              RootsUse(u, roots, unit, p, "") == RootsUse(u, roots, unit, p, except) + RootUse(u, r, unit, p)
    ensures (forall r <- roots :: r.session != except) ==> RootsUse(u, roots, unit, p, "") == RootsUse(u, roots, unit, p, except)
  {
    hide RootUse;
    if roots != [] {
      var front, last := roots[..|roots| - 1], roots[|roots| - 1];
      assert roots == front + [last];
      RootsUseSplit(u, front, unit, p, except);
      assert forall r <- front :: r.session != last.session;
    }
  }

  /** What the asker's own stored row, if any, adds to the period. */
  ghost function OwnUse(u: Usage, unit: string, p: Period, asker: string): int
  {
    if exists r <- u.runs :: r.id == asker then
      var r :| r in u.runs && r.id == asker;
      RunUse(u, r, unit, p)
    else if exists s <- u.roots :: s.session == asker then
      var s :| s in u.roots && s.session == asker;
      RootUse(u, s, unit, p)
    else 0
  }

  /** Leaving the asker out and adding its own row back is the whole period, for a run and for a root. */
  lemma {:induction false} WholePeriod(u: Usage, unit: string, p: Period, asker: string)
    requires UniqueNames(u) && asker != ""
    ensures LimitUsed(u, unit, p, "") == LimitUsed(u, unit, p, asker) + OwnUse(u, unit, p, asker) as real
  {
    hide RunUse, RootUse;
    RunsUseSplit(u, u.runs, unit, p, asker);
    RootsUseSplit(u, u.roots, unit, p, asker);
  }

  // ------------------------------------------------------------- limitWait

  datatype Wait = Wait(code: string, until: Option<int>, runNowAllowed: bool)

  /** Who asks: a new run or root, a worker claiming its reservation, or a root replaying its own holds. */
  datatype Asker = FreshRun | ClaimingWorker | NativeReplay

  predicate Claiming(a: Asker) { !a.FreshRun? }

  /** The budget a percent rule leaves on a measured window. */
  function LeftFor(rule: Rule, used: real, need: int, asker: Asker, w: Window): real {
    rule.amount as real - used + w.reserved as real - (if asker.ClaimingWorker? then need as real else 0.0)
  }

  function LowerBudget(rule: Rule, used: real, need: int, asker: Asker, w: Window): Window {
    if w.readAt.None? then w
    else
      var left := LeftFor(rule, used, need, asker, w);
      if w.budget.None? || w.budget.value > left then w.(budget := Some(left)) else w
  }

  /** Whether the original paced window of a repeated limit still has room. */
  predicate FromWindowOpen(from: Option<Window>, now: int, learned: map<string, int>, asker: Asker) {
    from.None? || now < from.value.startsAt || now >= from.value.endsAt ||
    var w := from.value;
    var estimate := if Claiming(asker) then 0 else EstimateFor(learned, w.unit, 0);
    var projected := AddUsage(w.used, w.reserved, estimate);
    projected.Some? &&
    projected.value <= AllowedUnits(w.allowance, PaceFraction(w.paceModel, ElapsedFraction(now, w.startsAt, w.endsAt), w.burstRatio))
  }

  predicate RulePasses(rule: Rule, costSupported: bool, from: Option<Window>, learned: map<string, int>, now: int,
                       used: real, estimates: map<string, int>, asker: Asker) {
    && (rule.unit == "cost_micros" ==> costSupported)
    && FromWindowOpen(from, now, learned, asker)
    && used + EstimateFor(estimates, rule.unit, 0) as real <= rule.amount as real
  }

  /** `limitWait`: waits exactly when the rule is spent; a percent rule lowers the measured windows' budgets in place. */
  method LimitWait(rule: Option<Rule>, costSupported: bool, from: Option<Window>, learned: map<string, int>,
                   periodEnd: int, now: int,
                   used: real, estimates: map<string, int>, asker: Asker, active: seq<Window>)
    returns (wait: Option<Wait>, lowered: seq<Window>)
    ensures wait.None? <==> rule.None? || RulePasses(rule.value, costSupported, from, learned, now, used, estimates, asker)
    ensures |lowered| == |active|
    ensures forall i :: 0 <= i < |active| ==>
              lowered[i] == if wait.None? && rule.Some? && rule.value.unit == "percent"
                            then LowerBudget(rule.value, used, EstimateFor(estimates, "percent", 0), asker, active[i])
                            else active[i]
  {
    hide AddUsage, PaceFraction, AllowedUnits, ElapsedFraction;
    lowered := active;
    if rule.None? { return None, active; }
    var rest := Some(Wait("allowance", Some(periodEnd), false));
    if rule.value.unit == "cost_micros" && !costSupported { return rest, active; }
    if from.Some? && from.value.startsAt <= now && now < from.value.endsAt {
      var w := from.value;
      var estimate := 0;
      if !Claiming(asker) { estimate := EstimateFor(learned, w.unit, 0); }
      var projected := AddUsage(w.used, w.reserved, estimate);
      var fraction := PaceFraction(w.paceModel, ElapsedFraction(now, w.startsAt, w.endsAt), w.burstRatio);
      if projected.None? || projected.value > AllowedUnits(w.allowance, fraction) {
        return Some(Wait("allowance", Some(w.endsAt), false)), active;
      }
    }
    var need := EstimateFor(estimates, rule.value.unit, 0);
    if used + need as real > rule.value.amount as real { return rest, active; }
    wait := None;
    if rule.value.unit == "percent" {
      for i := 0 to |lowered|
        invariant |lowered| == |active|
        invariant forall k :: 0 <= k < |active| ==>
                    lowered[k] == if k < i then LowerBudget(rule.value, used, need, asker, active[k]) else active[k]
      {
        var w := lowered[i];
        if w.readAt.None? { continue; }
        var left := rule.value.amount as real - used + w.reserved as real;
        if asker.ClaimingWorker? { left := left - need as real; }
        if w.budget.None? || w.budget.value > left { lowered := lowered[i := w.(budget := Some(left))]; }
      }
    }
  }

  /**
   * A percent rule counts the asker's own need exactly once. Let `w` be a
   * lowered window whose `reserved` leaves out the asker's hold for a fresh run
   * or a native replay, and includes it for a claiming worker. Passing the
   * budget gate with hold `h` (none for a claiming worker, whose hold is
   * already in `reserved`) keeps the period plus that need within the amount.
   */
  lemma {:induction false} NeedCountsOnce(rule: Rule, used: real, need: int, asker: Asker, w: Window, h: int)
    requires w.readAt.Some? && (asker.ClaimingWorker? ==> h == 0)
    requires var lowered := LowerBudget(rule, used, need, asker, w);
             (lowered.reserved + h) as real <= lowered.budget.value
    ensures used + (if asker.ClaimingWorker? then need else h) as real <= rule.amount as real
  {}

  /**
   * A worker or root that is already stored with the estimate it is admitted on
   * keeps the whole period, its own row included, within the amount.
   */
  lemma {:induction false} AdmittedPeriodIsWithinAmount(u: Usage, rule: Rule, p: Period, asker: string, need: int,
                                                       costSupported: bool, from: Option<Window>, learned: map<string, int>,
                                                       estimates: map<string, int>, kind: Asker)
    requires UniqueNames(u) && asker != "" && rule.unit == "percent"
    requires need == EstimateFor(estimates, "percent", 0) && OwnUse(u, "percent", p, asker) <= need
    requires RulePasses(rule, costSupported, from, learned, p.now, LimitUsed(u, "percent", p, asker), estimates, kind)
    ensures LimitUsed(u, "percent", p, "") <= rule.amount as real
  {
    hide LimitUsed, OwnUse;
    WholePeriod(u, "percent", p, asker);
  }

  /** Storing a fresh live run adds exactly its saved percent estimate to the period. */
  lemma {:induction false} StoringAddsNeedOnce(u: Usage, r: RunRow, p: Period)
    requires r.managed && r.live && "percent" in r.estimates && r.id != ""
    requires forall x <- u.runs :: x.id != r.id && x.id != ""
    ensures LimitUsed(u.(runs := u.runs + [r]), "percent", p, "") == LimitUsed(u, "percent", p, "") + r.estimates["percent"] as real
    ensures LimitUsed(u.(runs := u.runs + [r]), "percent", p, r.id) == LimitUsed(u, "percent", p, r.id)
  {
    var next := u.(runs := u.runs + [r]);
    assert next.runs[..|next.runs| - 1] == u.runs;
    SameRows(u, next, u.runs, u.roots, p, "");
    SameRows(u, next, u.runs, u.roots, p, r.id);
  }

  lemma {:induction false} SameRows(u: Usage, v: Usage, runs: seq<RunRow>, roots: seq<RootRow>, p: Period, except: string)
    requires u.readings == v.readings && u.defaults == v.defaults
    ensures RunsUse(u, runs, "percent", p, except) == RunsUse(v, runs, "percent", p, except)
    ensures RootsUse(u, roots, "percent", p, except) == RootsUse(v, roots, "percent", p, except)
    decreases |runs| + |roots|
  {
    if runs != [] { SameRows(u, v, runs[..|runs| - 1], roots, p, except); }
    if roots != [] { SameRows(u, v, runs, roots[..|roots| - 1], p, except); }
  }
}
