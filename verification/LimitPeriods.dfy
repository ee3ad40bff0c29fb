/**
 * What each run and root adds to a period, what a period then counts, and when
 * a rule lets an asker pass, said of the rows alone
 * (internal/agentaccounts/limits.go, native_root.go).
 */
module LimitPeriods {
  import opened Wrappers
  import opened Pace
  import opened Limits

  /** What the row saved for the unit, else the fallback. */
  function SavedOr(estimates: map<string, int>, unit: string, fallback: int): int {
    if unit in estimates then estimates[unit] else fallback
  }

  /** From its start to its end, or to its start if it has not ended, the run meets the period. */
  predicate Meets(r: RunRow, p: Period) {
    && r.startedAt != None && r.startedAt.value <= p.now
    && p.start <= match r.endedAt { case Some(end) => end case None => r.startedAt.value }
  }

  /** A measured reading was taken since, by now. */
  ghost predicate ReadAfter(u: Usage, since: int, now: int) { exists at <- u.readings :: since <= at && at <= now }

  /**
   * What a run adds. One not managed, nothing. Of percent: its estimate, or one,
   * while it lives, and afterwards while it meets the period blind and unread
   * since. Of runs: itself, while it lives or if it started in the period. Of
   * other units: what it reported in the period and, while it lives, what its
   * whole report falls short of its estimate; finished without any report, its
   * estimate if it meets the period.
   */
  lemma {:induction false} RunCounts(u: Usage, r: RunRow, unit: string, p: Period)
    ensures !r.managed ==> RunUse(u, r, unit, p) == 0
    ensures r.managed && unit == "percent" ==>
              var end := if r.endedAt != None then r.endedAt else r.startedAt;
              RunUse(u, r, unit, p) ==
              if r.live || (Meets(r, p) && r.blind && !ReadAfter(u, end.value, p.now)) then SavedOr(r.estimates, "percent", 1) else 0
    ensures r.managed && unit == "runs" ==>
              RunUse(u, r, unit, p) ==
              if r.live || (r.startedAt != None && p.start <= r.startedAt.value && r.startedAt.value <= p.now) then 1 else 0
    ensures r.managed && unit != "percent" && unit != "runs" ==>
              var use, estimate := RunUse(u, r, unit, p), SavedOr(r.estimates, unit, SavedOr(u.defaults, unit, 0));
              && (r.live ==> use >= r.inPeriod && use - r.inPeriod >= estimate - r.total
                             && (use == r.inPeriod || use - r.inPeriod == estimate - r.total))
              && (!r.live ==> use - r.inPeriod == if Meets(r, p) && r.total == 0 then estimate else 0)
  {}

  /**
   * What a root adds: its estimate until it is released, unless abandoned. Then,
   * of runs, if it was made in the period; of other units if it meets the
   * period, percent only while unread since its release.
   */
  lemma {:induction false} RootCounts(u: Usage, r: RootRow, unit: string, p: Period)
    ensures var meets := r.releasedAt != None && r.createdAt <= p.now && p.start <= r.releasedAt.value;
            var counts := if unit == "runs" then p.start <= r.createdAt && r.createdAt <= p.now
                          else if unit == "percent" then meets && !ReadAfter(u, r.releasedAt.value, p.now)
                          else meets;
            RootUse(u, r, unit, p) ==
            if !r.abandoned && (r.releasedAt == None || counts) then SavedOr(r.estimates, unit, SavedOr(u.defaults, unit, 0)) else 0
  {}

  lemma {:induction false} SameReadings(u: Usage, v: Usage, runs: seq<RunRow>, roots: seq<RootRow>, unit: string, p: Period, except: string)
    requires u.readings == v.readings && u.defaults == v.defaults
    ensures RunsUse(u, runs, unit, p, except) == RunsUse(v, runs, unit, p, except)
    ensures RootsUse(u, roots, unit, p, except) == RootsUse(v, roots, unit, p, except)
    decreases |runs| + |roots|
  {
    if runs != [] { SameReadings(u, v, runs[..|runs| - 1], roots, unit, p, except); }
    if roots != [] { SameReadings(u, v, runs, roots[..|roots| - 1], unit, p, except); }
  }

  /** A period counts the vendor's percent, and what every run and root but the asker adds, each once. */
  lemma {:induction false} PeriodAddsUp(u: Usage, run: RunRow, root: RootRow, unit: string, p: Period, except: string)
    ensures LimitUsed(u.(runs := [], roots := []), unit, p, except) == if unit == "percent" then u.measured else 0.0
    ensures LimitUsed(u.(runs := u.runs + [run]), unit, p, except) ==
            LimitUsed(u, unit, p, except) + if run.id == except then 0.0 else RunUse(u, run, unit, p) as real
    ensures LimitUsed(u.(roots := u.roots + [root]), unit, p, except) ==
            LimitUsed(u, unit, p, except) + if root.session == except then 0.0 else RootUse(u, root, unit, p) as real
  {
    var more, rooted := u.(runs := u.runs + [run]), u.(roots := u.roots + [root]);
    assert more.runs[..|more.runs| - 1] == u.runs && rooted.roots[..|rooted.roots| - 1] == u.roots;
    SameReadings(u, more, u.runs, u.roots, unit, p, except);
    SameReadings(u, rooted, u.runs, u.roots, unit, p, except);
    assert RunUse(more, run, unit, p) == RunUse(u, run, unit, p) && RootUse(rooted, root, unit, p) == RootUse(u, root, unit, p);
    hide RunUse, RootUse;
  }

  /** The window a repeated limit came from is open now, and what it holds with the estimate passes its pace. */
  predicate PacedOut(from: Option<Window>, now: int, estimate: int) {
    from.Some? && from.value.startsAt <= now && now < from.value.endsAt &&
    var w := from.value;
    var whole := w.used + w.reserved + estimate;
    || w.used < 0 || w.reserved < 0 || estimate < 0 || whole > 0x7FFF_FFFF_FFFF_FFFF
    || whole > AllowedUnits(w.allowance, PaceFraction(w.paceModel, ElapsedFraction(now, w.startsAt, w.endsAt), w.burstRatio))
  }

  /**
   * A rule lets an asker pass exactly when the unit is supported, the window the
   * limit came from is within its pace, with the estimate of an asker that holds
   * nothing yet, and the period with what the asker needs is within the amount.
   */
  lemma {:induction false} RulePassesExactly(rule: Rule, costSupported: bool, from: Option<Window>, learned: map<string, int>, now: int,
                                             used: real, estimates: map<string, int>, asker: Asker)
    ensures RulePasses(rule, costSupported, from, learned, now, used, estimates, asker) <==>
            && !(rule.unit == "cost_micros" && !costSupported)
            && !PacedOut(from, now, if from.Some? && asker == FreshRun then SavedOr(learned, from.value.unit, 0) else 0)
            && used <= rule.amount as real - SavedOr(estimates, rule.unit, 0) as real
  {
    hide AllowedUnits, PaceFraction, ElapsedFraction;
  }
}
