/**
 * Account admission (`admissionInputs` in internal/agentaccounts/admission.go):
 * the windows a run may reserve on, or the wait that stands in its way.
 * Schedules, learned metrics, pacing plans and readiness checks are inputs.
 */
module Admission {
  import opened Wrappers
  import opened Pace
  import opened Limits
  import opened NativeLedger
  import opened Exclusion
  import opened ActiveWindows
  import IdOrder

  datatype Account = Account(
    id: string, state: string, lastProbeOk: Option<bool>, probeFailure: string, probeFresh: bool,
    maxParallel: int, approved: bool, sharedQuota: bool)

  datatype RunInfo = RunInfo(id: string, nativeRoot: bool, claiming: bool, slots: int)

  /** The account's usage policy: a hard floor in percent, a posture and a boost. */
  datatype UsagePolicy = UsagePolicy(floor: int, active: bool, maxout: bool, boost: int)

  datatype Pacing = Pacing(budget: real, share: Option<real>, reserveUntil: Option<int>)

  datatype Clock = Clock(
    now: int, holdUntil: Option<int>, onHold: bool,
    openNow: bool,              // sprint, away, or inside a work period
    nextStart: Option<int>, nextBand: Option<int>)

  /** What the surrounding queries supply. */
  datatype Inputs = Inputs(
    daily: Option<Wait>, readiness: Option<Wait>, permits: nat,
    table: Windows, ownHolds: seq<Hold>, exceptRun: string,
    policy: UsagePolicy, rule: Option<Rule>, costSupported: bool, from: Option<Window>,
    learned: map<string, int>, estimates: map<string, int>, periodUse: real, periodEnd: int)

  datatype Refusal = Waiting(wait: Wait) | Unreadable

  function AskerOf(run: RunInfo): Asker {
    if !run.claiming then FreshRun else if run.nativeRoot then NativeReplay else ClaimingWorker
  }

  /** Measured, and not a synthetic one-run grant. */
  predicate Measured(w: Window) { w.readAt.Some? && !Synthetic(w) }

  // ------------------------------------------------ one window, stage by stage

  /** Kept as a regular window: manual, or measured within ten minutes. */
  predicate Regular(w: Window, now: int) {
    && !Synthetic(w) && !w.pairingVerification && w.kind != "fact"
    && (w.readAt.Some? ==> w.source != "estimate" && now - w.readAt.value <= FRESH)
  }

  /** `factWindows`: fresh facts of this account's resources. */
  predicate FreshFact(w: Window, now: int) {
    && w.kind == "fact" && w.readAt.Some? && 0 <= now - w.readAt.value <= FRESH && now < w.endsAt
    && w.startsAt == w.readAt.value && w.allowed && !w.retired && w.usageCeiling.None? && w.budget.None?
  }

  /** `applyCapacityPacing` on one window. */
  function Paced(w: Window, p: Pacing): Window {
    if !Measured(w) then w
    else w.(budget := Some(p.budget), share := p.share, reserveUntil := p.reserveUntil)
  }

  /** `applyUsageFloor` on one window. */
  function Floored(w: Window, p: UsagePolicy): Window {
    if Synthetic(w) then w
    else
      var ceiled := if p.floor > 0
                    then w.(usageCeiling := Some(AllowedUnits(w.allowance, (100 - p.floor) as real / 100.0))) else w;
      var posed := if p.active && w.readAt.Some?
                   then ceiled.(paceModel := if p.maxout then "unrestricted" else "steady", burstRatio := 0.0) else ceiled;
      posed.(burstRatio := Min(1.0, posed.burstRatio + p.boost as real / 100.0))
  }

  /** The learned hold of one window. */
  function WithHold(w: Window, hold: int, now: int): Window {
    if !Measured(w) then w
    else if now - w.readAt.value <= FRESH || w.source == "estimate" then w.(hold := hold)
    else w
  }

  function Provisional(id: string, now: int, bucket: string, permits: nat): Window {
    Window("", id, now, now + 5 * MINUTE, "percent", 1, 0, 0, "unrestricted", 0.0, None,
           Some(now), true, false, "blind", bucket, "estimate", 0, None, None, None, None, false, permits)
  }

  function Ceiling(w: Window): int { w.usageCeiling.GetOr(w.allowance) }

  /** What the run asks of a window: nothing when it already owns its reservation. */
  function Ask(w: Window, need: int): int { MaxInt(need, w.hold * need) }

  predicate HardRoom(w: Window, need: int) { Ceiling(w) - w.used - w.reserved >= Ask(w, need) }

  predicate BudgetRoom(w: Window, need: int) {
    w.budget.None? || w.budget.value >= (w.reserved + Ask(w, need)) as real
  }

  predicate ShareRoom(w: Window, need: int) {
    w.share.Some? && w.share.value >= (w.reserved + Ask(w, need)) as real
  }

  // ------------------------------------------------------- the early refusals

  /** The gates before any window is read, in order. */
  function EarlyWait(a: Account, run: RunInfo, clock: Clock, inputs: Inputs): Option<Wait> {
    var code := (c: string) => Some(Wait(c, None, false));
    if inputs.daily.Some? then inputs.daily
    else if a.state != "available" && a.state != "unavailable" then code("state")
    else if a.lastProbeOk == Some(false) then
      (if a.probeFailure == "auth_failed" then code("sign_in")
       else if a.state != "available" then code("state") else code("offline"))
    else if a.state != "available" then code("state")
    else if !a.probeFresh then code("offline")
    else if run.slots >= a.maxParallel then code("capacity")
    else if !a.approved then code("approval")
    else if clock.onHold then Some(Wait("hold", clock.holdUntil, false))
    else if inputs.readiness.Some? then inputs.readiness
    else if inputs.permits > 0 && run.slots > 0 && !run.claiming then code("capacity")
    else None
  }

  /** The login can be used: signed in, reached lately, and not paused. */
  predicate LoginUsable(a: Account) { a.state == "available" && a.lastProbeOk != Some(false) && a.probeFresh }

  /** Every gate is open: a usable login, a free slot, an approved enrolment, and nobody and nothing holding the account. */
  predicate GatesOpen(a: Account, run: RunInfo, clock: Clock, inputs: Inputs) {
    && inputs.daily.None? && LoginUsable(a) && run.slots < a.maxParallel && a.approved && !clock.onHold && inputs.readiness.None?
    && (inputs.permits == 0 || run.slots <= 0 || run.claiming)
  }

  predicate Bare(w: Wait, code: string) { w.code == code && w.until.None? && !w.runNowAllowed }

  /** The wait at a closed gate: that of the first gate closed, with its own code. */
  predicate WaitsAtGate(a: Account, run: RunInfo, clock: Clock, inputs: Inputs, w: Wait) {
    if inputs.daily.Some? then w == inputs.daily.value
    else
      && (a.state != "available" && a.state != "unavailable" ==> Bare(w, "state"))
      && (a.state == "unavailable" ==> Bare(w, if a.lastProbeOk == Some(false) && a.probeFailure == "auth_failed" then "sign_in" else "state"))
      && (a.state == "available" && a.lastProbeOk == Some(false) ==> Bare(w, if a.probeFailure == "auth_failed" then "sign_in" else "offline"))
      && (a.state == "available" && a.lastProbeOk != Some(false) && !a.probeFresh ==> Bare(w, "offline"))
      && (LoginUsable(a) && a.maxParallel <= run.slots ==> Bare(w, "capacity"))
      && (LoginUsable(a) && run.slots < a.maxParallel && !a.approved ==> Bare(w, "approval"))
      && (LoginUsable(a) && run.slots < a.maxParallel && a.approved ==>
            && (clock.onHold ==> w.code == "hold" && w.until == clock.holdUntil && !w.runNowAllowed)
            && (!clock.onHold && inputs.readiness.Some? ==> w == inputs.readiness.value)
            && (!clock.onHold && inputs.readiness.None? ==> Bare(w, "capacity")))
  }

  /** The gates let a run by exactly when all are open, and else it waits at the first one closed. */
  lemma {:induction false} EarlyWaitIsGates(a: Account, run: RunInfo, clock: Clock, inputs: Inputs)
    ensures EarlyWait(a, run, clock, inputs).None? <==> GatesOpen(a, run, clock, inputs)
    ensures EarlyWait(a, run, clock, inputs).Some? ==> WaitsAtGate(a, run, clock, inputs, EarlyWait(a, run, clock, inputs).value)
  {}

  // -------------------------------------------------------------- the windows

  predicate Owns(w: Window, run: RunInfo) {
    w.refreshRun == Some(run.id) || (run.nativeRoot && w.bucket == "unknown:" + run.id)
  }

  /** A claiming run's own grant that still stands. */
  predicate Grants(w: Window, run: RunInfo, now: int) {
    Synthetic(w) && run.claiming && Owns(w, run) && now < w.endsAt && !w.retired
  }

  function LastGrant(all: seq<Window>, run: RunInfo, now: int): (r: Option<Window>)
    ensures r.Some? ==> r.value in all && Grants(r.value, run, now)
    ensures r.None? ==> forall w <- all :: !Grants(w, run, now)
  {
    if all == [] then None
    else if Grants(all[|all| - 1], run, now) then Some(all[|all| - 1])
    else LastGrant(all[..|all| - 1], run, now)
  }

  /** The listed windows that are read as windows, in their order. */
  function RegularOf(all: seq<Window>, now: int): (r: seq<Window>)
    ensures forall w :: w in r <==> w in all && Regular(w, now)
  {
    if all == [] then []
    else
      var w := all[|all| - 1];
      RegularOf(all[..|all| - 1], now) + (if Regular(w, now) then [w] else [])
  }

  /** A window without what the run itself holds on it. */
  function Taken(w: Window, inputs: Inputs, sharedQuota: bool): Window {
    if inputs.exceptRun == "" then w else Less(w, Matched(inputs.table, inputs.ownHolds, w, sharedQuota))
  }

  function TakenOut(ws: seq<Window>, inputs: Inputs, sharedQuota: bool): (r: seq<Window>)
    ensures |r| == |ws|
  {
    seq(|ws|, i requires 0 <= i < |ws| => Taken(ws[i], inputs, sharedQuota))
  }

  /** The run's holds can be taken out: few enough, and none above what a window has reserved. */
  ghost predicate Takable(ws: seq<Window>, inputs: Inputs, sharedQuota: bool) {
    inputs.exceptRun == ""
    || (|inputs.ownHolds| <= MAX_HOLDS && forall w <- ws :: Covers(w, Matched(inputs.table, inputs.ownHolds, w, sharedQuota)))
  }

  lemma {:induction false} ExcludedIsTakenOut(ws: seq<Window>, after: seq<Window>, inputs: Inputs, sharedQuota: bool)
    requires inputs.exceptRun == "" ==> after == ws
    requires inputs.exceptRun != "" ==> Projected(inputs.table, inputs.ownHolds, ws, after, sharedQuota)
    ensures after == TakenOut(ws, inputs, sharedQuota)
  {
    hide Matched, Less;
    if inputs.exceptRun != "" {
      forall i | 0 <= i < |ws|
        ensures after[i] == Taken(ws[i], inputs, sharedQuota)
      {
        ProjectedAt(inputs.table, inputs.ownHolds, ws, after, sharedQuota, i);
      }
    }
  }

  /** The run's own grant; a native root's is read without what the root already holds. */
  function OwnGrant(all: seq<Window>, run: RunInfo, now: int, sharedQuota: bool, inputs: Inputs): (r: Option<Window>)
    ensures r.Some? ==> Synthetic(r.value)
  {
    match LastGrant(all, run, now)
    case None => None
    case Some(w) => Some(if run.nativeRoot then Taken(w, inputs, sharedQuota) else w)
  }

  /** No grant of a native root is held for more than it has reserved. */
  ghost predicate GrantsReadable(all: seq<Window>, run: RunInfo, now: int, sharedQuota: bool, inputs: Inputs) {
    run.nativeRoot ==> forall w <- all :: Grants(w, run, now) ==> Takable([w], inputs, sharedQuota)
  }

  lemma {:induction false} SplitNothing(run: RunInfo, now: int, sharedQuota: bool, inputs: Inputs)
    ensures RegularOf([], now) == [] && OwnGrant([], run, now, sharedQuota, inputs) == None
    ensures GrantsReadable([], run, now, sharedQuota, inputs)
  {}

  /** One more listed window. */
  lemma {:induction false} SplitStep(all: seq<Window>, i: nat, run: RunInfo, now: int, sharedQuota: bool, inputs: Inputs)
    requires i < |all|
    ensures RegularOf(all[..i + 1], now) == RegularOf(all[..i], now) + (if Regular(all[i], now) then [all[i]] else [])
    ensures OwnGrant(all[..i + 1], run, now, sharedQuota, inputs) ==
            if !Grants(all[i], run, now) then OwnGrant(all[..i], run, now, sharedQuota, inputs)
            else Some(if run.nativeRoot then Taken(all[i], inputs, sharedQuota) else all[i])
    ensures GrantsReadable(all[..i + 1], run, now, sharedQuota, inputs) <==>
            GrantsReadable(all[..i], run, now, sharedQuota, inputs)
            && (run.nativeRoot && Grants(all[i], run, now) ==> Takable([all[i]], inputs, sharedQuota))
    ensures GrantsReadable(all, run, now, sharedQuota, inputs) && run.nativeRoot && Grants(all[i], run, now) ==>
              Takable([all[i]], inputs, sharedQuota)
  {
    assert all[..i + 1] == all[..i] + [all[i]] && all[..i + 1][..i] == all[..i] && all[i] in all;
    hide Taken, Takable, Grants, Regular;
  }

  /** Sorting the listed windows into regular ones and the run's own synthetic grant. */
  method SplitWindows(all: seq<Window>, now: int, run: RunInfo, sharedQuota: bool, inputs: Inputs)
    returns (r: Result<(seq<Window>, Option<Window>), ExclusionError>)
    requires forall h <- inputs.ownHolds :: h.units >= 1
    ensures r.Ok? <==> GrantsReadable(all, run, now, sharedQuota, inputs)
    ensures r.Ok? ==> r.value == (RegularOf(all, now), OwnGrant(all, run, now, sharedQuota, inputs))
  {
    hide Taken, TakenOut, Takable, Projected, Covers, Matched, Owns, RegularOf, OwnGrant, GrantsReadable;
    assert all[..0] == [];
    SplitNothing(run, now, sharedQuota, inputs);
    var regular: seq<Window> := [];
    var own: Option<Window> := None;
    for i := 0 to |all|
      invariant regular == RegularOf(all[..i], now)
      invariant own == OwnGrant(all[..i], run, now, sharedQuota, inputs)
      invariant GrantsReadable(all[..i], run, now, sharedQuota, inputs)
    {
      var w := all[i];
      SplitStep(all, i, run, now, sharedQuota, inputs);
      if Synthetic(w) {
        if run.claiming && Owns(w, run) && now < w.endsAt && !w.retired {
          own := Some(w);
          if run.nativeRoot {
            var projected := Exclude(inputs.table, inputs.exceptRun, inputs.ownHolds, [w], sharedQuota);
            OneTaken(w, projected, inputs, sharedQuota);
            if projected.Err? { return Err(ExclusionError.Unreadable); }
            own := Some(projected.value[0]);
          }
        }
        continue;
      }
      if w.pairingVerification || w.kind == "fact"
         || (w.readAt.Some? && (w.source == "estimate" || now - w.readAt.value > FRESH)) {
        continue;
      }
      regular := regular + [w];
    }
    assert all[..|all|] == all;
    r := Ok((regular, own));
  }

  /** The exclusion on one window. */
  lemma {:induction false} OneTaken(w: Window, projected: Result<seq<Window>, ExclusionError>, inputs: Inputs, sharedQuota: bool)
    requires inputs.exceptRun == "" ==> projected == Ok([w])
    requires inputs.exceptRun != "" ==>
               (projected.Ok? <==> |inputs.ownHolds| <= MAX_HOLDS
                                   && forall x <- [w] :: Covers(x, Matched(inputs.table, inputs.ownHolds, x, sharedQuota)))
    requires inputs.exceptRun != "" && projected.Ok? ==> Projected(inputs.table, inputs.ownHolds, [w], projected.value, sharedQuota)
    ensures projected.Ok? <==> Takable([w], inputs, sharedQuota)
    ensures projected.Ok? ==> |projected.value| == 1 && projected.value[0] == Taken(w, inputs, sharedQuota)
  {
    hide Matched, Covers;
    if projected.Ok? { ExcludedIsTakenOut([w], projected.value, inputs, sharedQuota); }
  }

  /** Every active window, paced, floored and with its learned hold; edited in place. */
  method Prepare(windows: seq<Window>, now: int, pace: Window -> Pacing, learnedHold: Window -> int, policy: UsagePolicy)
    returns (active: seq<Window>)
    ensures |active| == |windows|
    ensures forall i :: 0 <= i < |windows| ==> active[i] == Prepared(windows[i], now, pace, learnedHold, policy)
  {
    hide Paced, Floored, WithHold;
    active := windows;
    for i := 0 to |active|
      invariant |active| == |windows|
      invariant forall k :: 0 <= k < |windows| ==> active[k] == if k < i then Paced(windows[k], pace(windows[k])) else windows[k]
    {
      active := active[i := Paced(active[i], pace(active[i]))];
    }
    for i := 0 to |active|
      invariant |active| == |windows|
      invariant forall k :: 0 <= k < |windows| ==>
                  var p := Paced(windows[k], pace(windows[k]));
                  active[k] == if k < i then Floored(p, policy) else p
    {
      active := active[i := Floored(active[i], policy)];
    }
    for i := 0 to |active|
      invariant |active| == |windows|
      invariant forall k :: 0 <= k < |windows| ==>
                  var f := Floored(Paced(windows[k], pace(windows[k])), policy);
                  active[k] == if k < i then WithHold(f, learnedHold(f), now) else f
    {
      active := active[i := WithHold(active[i], learnedHold(active[i]), now)];
    }
  }

  function Prepared(w: Window, now: int, pace: Window -> Pacing, learnedHold: Window -> int, policy: UsagePolicy): Window {
    var f := Floored(Paced(w, pace(w)), policy);
    WithHold(f, learnedHold(f), now)
  }

  /** The hard allowance: waits until the last reset of the windows without room. */
  method HardWait(ordered: seq<Window>, need: int) returns (until: Option<int>)
    ensures until.None? <==> forall w <- ordered :: HardRoom(w, need)
    ensures until.Some? ==>
              && (exists w <- ordered :: !HardRoom(w, need) && w.endsAt == until.value)
              && (forall w <- ordered :: !HardRoom(w, need) ==> w.endsAt <= until.value)
  {
    until := None;
    for i := 0 to |ordered|
      invariant until.None? <==> forall w <- ordered[..i] :: HardRoom(w, need)
      invariant until.Some? ==> exists w <- ordered[..i] :: !HardRoom(w, need) && w.endsAt == until.value
      invariant until.Some? ==> forall w <- ordered[..i] :: !HardRoom(w, need) ==> w.endsAt <= until.value
    {
      var w := ordered[i];
      assert ordered[..i + 1] == ordered[..i] + [w];
      if HardRoom(w, need) { continue; }
      assert w in ordered[..i + 1];
      if until.None? || w.endsAt > until.value { until := Some(w.endsAt); }
    }
    assert ordered[..|ordered|] == ordered;
  }

  /** The paced budget: the schedule when a share is short, the reserve when only the reserve stands in the way. */
  method BudgetWait(ordered: seq<Window>, need: int, next: Option<int>) returns (wait: Option<Wait>)
    ensures wait.None? <==> forall w <- ordered :: BudgetRoom(w, need)
    ensures wait.Some? ==>
              wait.value.code ==
              if exists w <- ordered :: !BudgetRoom(w, need) && !ShareRoom(w, need) then "schedule" else "reserve"
  {
    var reserve: Option<Wait> := None;
    for i := 0 to |ordered|
      invariant forall w <- ordered[..i] :: BudgetRoom(w, need) || ShareRoom(w, need)
      invariant reserve.None? <==> forall w <- ordered[..i] :: BudgetRoom(w, need)
      invariant reserve.Some? ==> reserve.value.code == "reserve"
    {
      var w := ordered[i];
      assert ordered[..i + 1] == ordered[..i] + [w];
      if BudgetRoom(w, need) { continue; }
      if ShareRoom(w, need) {
        if reserve.None? || (w.reserveUntil.Some? && (reserve.value.until.None? || w.reserveUntil.value > reserve.value.until.value)) {
          reserve := Some(Wait("reserve", w.reserveUntil, true));
        }
        continue;
      }
      assert w in ordered;
      return Some(Wait("schedule", next, true));
    }
    assert ordered[..|ordered|] == ordered;
    wait := reserve;
  }

  // ----------------------------------------------- soundness of one window

  /** Stored amounts, before any derived limit is set. */
  predicate Stored(w: Window) {
    0 <= w.used && 0 <= w.reserved && w.allowance <= MAX_INT64 && w.usageCeiling.None? && w.budget.None?
  }

  predicate PolicyOk(p: UsagePolicy) { 0 <= p.floor <= 80 }

  /** A measured window that binds now. */
  predicate Live(w: Window, now: int) {
    Measured(w) ==> w.allowed && !w.retired && w.startsAt <= now < w.endsAt && now - w.readAt.value <= FRESH && Stored(w)
  }

  /** With hard and paced room for what it asks, a prepared window passes the binding gate for any estimate up to that. */
  lemma {:induction false} RoomFits(w: Window, now: int, pace: Window -> Pacing, learnedHold: Window -> int,
                                    policy: UsagePolicy, estimate: int)
    requires Live(w, now) && PolicyOk(policy)
    requires var p := Prepared(w, now, pace, learnedHold, policy);
             Measured(p) && HardRoom(p, 1) && BudgetRoom(p, 1) && 1 <= estimate <= Ask(p, 1)
    ensures var p := Prepared(w, now, pace, learnedHold, policy);
            p.budget.Some? && Fits(p, now, estimate).Some?
  {
    AllowedGrows(w.allowance, (100 - policy.floor) as real / 100.0, 1.0);
  }

  /** Lowering the budget can only withdraw the promise through the budget itself. */
  lemma {:induction false} LoweredFits(p: Window, now: int, rule: Rule, used: real, need: int, asker: Asker, estimate: int)
    requires p.readAt.Some? && p.budget.Some? && Fits(p, now, estimate).Some?
    ensures var l := LowerBudget(rule, used, need, asker, p);
            Fits(l, now, estimate).Some? <==> (l.reserved + estimate) as real <= l.budget.value
  {}

  // ------------------------------------------------------- the whole procedure

  /** Kind, bucket, end, id: the stable order of the checks. */
  predicate InOrder(a: Window, b: Window) {
    if a.kind != b.kind then IdOrder.LessEq(a.kind, b.kind)
    else if a.bucket != b.bucket then IdOrder.LessEq(a.bucket, b.bucket)
    else if a.endsAt != b.endsAt then a.endsAt < b.endsAt
    else IdOrder.LessEq(a.id, b.id)
  }

  predicate PercentRule(inputs: Inputs) { inputs.rule.Some? && inputs.rule.value.unit == "percent" }

  function Need(inputs: Inputs): int { EstimateFor(inputs.estimates, "percent", 0) }

  /** What the surrounding queries promise about the rows they list. */
  ghost predicate InputsOk(all: seq<Window>, facts: seq<Window>, now: int, inputs: Inputs) {
    && (forall w <- all :: Stored(w))
    && (forall w <- facts :: FreshFact(w, now) && Stored(w))
    && (forall h <- inputs.ownHolds :: h.units >= 1)
    && PolicyOk(inputs.policy)
  }

  /** `regular`, after the run's own holds are taken out: still what they were but for `reserved`. */
  lemma {:induction false} ExcludedIsStored(table: Windows, runId: string, holds: seq<Hold>, before: seq<Window>,
                                            after: seq<Window>, sharedQuota: bool)
    requires (forall w <- before :: Stored(w)) && forall h <- holds :: h.units >= 1
    requires runId == "" ==> after == before
    requires runId != "" ==> (forall w <- before :: Covers(w, Matched(table, holds, w, sharedQuota)))
                             && Projected(table, holds, before, after, sharedQuota)
    ensures forall w <- after :: Stored(w) && exists b <- before :: w == b.(reserved := w.reserved)
  {
    hide Matched;
    forall w | w in after
      ensures Stored(w) && exists b <- before :: w == b.(reserved := w.reserved)
    {
      var i :| 0 <= i < |after| && after[i] == w;
      var b := before[i];
      assert b in before && w == b.(reserved := w.reserved);
      MatchedGrows(table, holds, b, sharedQuota, 0);
    }
  }

  /** What binds now is live: allowed, unretired, begun, unexpired and freshly read. */
  lemma {:induction false} BindingIsLive(windows: seq<Window>, active: seq<Window>, now: int)
    requires forall w <- windows :: Stored(w) && (Regular(w, now) || FreshFact(w, now))
    requires forall w <- active :: Binds(windows, w, now)
    ensures forall w <- active :: Live(w, now) && !Synthetic(w)
  {
    hide IsNewest;
  }

  /** What a returned window promises a run that does not hold its reservation yet. */
  ghost predicate Promised(w: Window, now: int, inputs: Inputs) {
    && ((PercentRule(inputs) ==> Need(inputs) >= 1) ==> Fits(w, now, 1).Some?)
    && (Fits(w, now, MaxInt(1, w.hold)).Some? <==>
        (PercentRule(inputs) ==> inputs.periodUse + MaxInt(1, w.hold) as real <= inputs.rule.value.amount as real))
  }

  /** One returned window: the promises the binding gate keeps. */
  lemma {:induction false} ReturnedFits(w: Window, now: int, pace: Window -> Pacing, learnedHold: Window -> int,
                                        inputs: Inputs, asker: Asker, lowered: Window)
    requires Live(w, now) && PolicyOk(inputs.policy) && asker.FreshRun?
    requires var p := Prepared(w, now, pace, learnedHold, inputs.policy);
             && Measured(p) && HardRoom(p, 1) && BudgetRoom(p, 1)
             && lowered == if PercentRule(inputs) then LowerBudget(inputs.rule.value, inputs.periodUse, Need(inputs), asker, p) else p
    requires PercentRule(inputs) ==> inputs.periodUse + Need(inputs) as real <= inputs.rule.value.amount as real
    ensures Promised(lowered, now, inputs)
  {
    var p := Prepared(w, now, pace, learnedHold, inputs.policy);
    var h := MaxInt(1, p.hold);
    RoomFits(w, now, pace, learnedHold, inputs.policy, 1);
    RoomFits(w, now, pace, learnedHold, inputs.policy, h);
    assert p.budget.value >= (p.reserved + h) as real;
    hide Fits, Prepared, HardRoom;
    if PercentRule(inputs) {
      LoweredFits(p, now, inputs.rule.value, inputs.periodUse, Need(inputs), asker, 1);
      LoweredFits(p, now, inputs.rule.value, inputs.periodUse, Need(inputs), asker, h);
    }
  }

  /** When the windows that bind now let the run through. */
  ghost predicate Passes(windows: seq<Window>, unknownOnly: bool, run: RunInfo, clock: Clock,
                         pace: Window -> Pacing, learnedHold: Window -> int, inputs: Inputs) {
    var need := if run.claiming then 0 else 1;
    && !(inputs.policy.floor > 0 && forall w <- windows :: Synthetic(w))
    && (forall i :: 0 <= i < |windows| ==>
          var p := Prepared(windows[i], clock.now, pace, learnedHold, inputs.policy);
          HardRoom(p, need) && BudgetRoom(p, need))
    && (unknownOnly ==> clock.openNow)
    && RuleLets(run, clock.now, inputs)
  }

  function Returned(p: Window, run: RunInfo, inputs: Inputs): Window {
    if PercentRule(inputs) then LowerBudget(inputs.rule.value, inputs.periodUse, Need(inputs), AskerOf(run), p) else p
  }

  predicate RuleLets(run: RunInfo, now: int, inputs: Inputs) {
    inputs.rule.None? || RulePasses(inputs.rule.value, inputs.costSupported, inputs.from, inputs.learned, now,
                                    inputs.periodUse, inputs.estimates, AskerOf(run))
  }

  /** The period rule lowers budgets in place; the paced budgets are then checked on the windows as they were. */
  method CheckBudgets(active: seq<Window>, ordered: seq<Window>, run: RunInfo, clock: Clock, inputs: Inputs)
    returns (r: Result<seq<Window>, Refusal>)
    ensures r.Ok? <==> RuleLets(run, clock.now, inputs) && forall w <- ordered :: BudgetRoom(w, if run.claiming then 0 else 1)
    ensures r.Ok? ==> |r.value| == |active| && forall i :: 0 <= i < |active| ==> r.value[i] == Returned(active[i], run, inputs)
  {
    hide BudgetRoom, LowerBudget, RulePasses, ShareRoom, AskerOf;
    var wait, lowered := LimitWait(inputs.rule, inputs.costSupported, inputs.from, inputs.learned, inputs.periodEnd, clock.now,
                                   inputs.periodUse, inputs.estimates, AskerOf(run), active);
    if wait.Some? { return Err(Waiting(wait.value)); }
    var short := BudgetWait(ordered, if run.claiming then 0 else 1, clock.nextBand);
    if short.Some? { return Err(Waiting(short.value)); }
    r := Ok(lowered);
  }

  /**
   * From pacing to the paced budgets, over the windows that bind now: lets the
   * run through exactly when every check passes. The budget check reads the
   * windows as they were before the period rule lowered them.
   */
  method CheckPrepared(windows: seq<Window>, unknownOnly: bool, run: RunInfo, clock: Clock,
                       pace: Window -> Pacing, learnedHold: Window -> int, inputs: Inputs)
    returns (r: Result<seq<Window>, Refusal>)
    requires (forall w <- windows :: Live(w, clock.now)) && PolicyOk(inputs.policy)
    ensures r.Ok? <==> Passes(windows, unknownOnly, run, clock, pace, learnedHold, inputs)
    ensures r.Ok? ==> |r.value| == |windows|
    ensures r.Ok? ==> forall i :: 0 <= i < |windows| ==>
              r.value[i] == Returned(Prepared(windows[i], clock.now, pace, learnedHold, inputs.policy), run, inputs)
    ensures r.Ok? && !run.claiming ==> forall w <- r.value :: Measured(w) ==> Promised(w, clock.now, inputs)
  {
    hide Fits, Prepared, HardRoom, BudgetRoom, LowerBudget, Live, RulePasses, Promised, InOrder, Measured, ShareRoom;
    hide IdOrder.SortBy, AskerOf, PolicyOk, Synthetic, Returned;
    var now := clock.now;
    var need := if run.claiming then 0 else 1;
    if inputs.policy.floor > 0 && forall w <- windows :: Synthetic(w) {
      return Err(Waiting(Wait("reading", None, false)));
    }
    var active := Prepare(windows, now, pace, learnedHold, inputs.policy);
    var ordered := IdOrder.SortBy(active, InOrder);
    IdOrder.SortByPermutes(active, InOrder);
    assert forall i :: 0 <= i < |windows| ==> active[i] in ordered;
    var hard := HardWait(ordered, need);
    if hard.Some? { return Err(Waiting(Wait("allowance", hard, false))); }
    if unknownOnly && !clock.openNow { return Err(Waiting(Wait("schedule", clock.nextStart, true))); }
    r := CheckBudgets(active, ordered, run, clock, inputs);
    if r.Err? { return; }
    var lowered := r.value;
    if !run.claiming {
      PromisedAll(windows, lowered, run, now, pace, learnedHold, inputs);
    }
  }

  lemma {:induction false} PromisedAll(windows: seq<Window>, lowered: seq<Window>, run: RunInfo, now: int,
                                       pace: Window -> Pacing, learnedHold: Window -> int, inputs: Inputs)
    requires (forall w <- windows :: Live(w, now)) && PolicyOk(inputs.policy) && !run.claiming && |lowered| == |windows|
    requires forall i :: 0 <= i < |windows| ==>
               var p := Prepared(windows[i], now, pace, learnedHold, inputs.policy);
               HardRoom(p, 1) && BudgetRoom(p, 1) && lowered[i] == Returned(p, run, inputs)
    requires RuleLets(run, now, inputs)
    ensures forall w <- lowered :: Measured(w) ==> Promised(w, now, inputs)
  {
    hide Fits, Prepared, HardRoom, BudgetRoom, LowerBudget, Live, RulePasses, Promised, Measured;
    PassedRuleCovers(inputs, AskerOf(run), now);
    forall i | 0 <= i < |lowered| && Measured(lowered[i])
      ensures Promised(lowered[i], now, inputs)
    {
      var p := Prepared(windows[i], now, pace, learnedHold, inputs.policy);
      assert windows[i] in windows;
      LowerKeepsMeasured(inputs, Need(inputs), AskerOf(run), p);
      ReturnedFits(windows[i], now, pace, learnedHold, inputs, AskerOf(run), lowered[i]);
    }
  }

  lemma {:induction false} LowerKeepsMeasured(inputs: Inputs, need: int, asker: Asker, w: Window)
    ensures inputs.rule.Some? ==> (Measured(LowerBudget(inputs.rule.value, inputs.periodUse, need, asker, w)) <==> Measured(w))
  {}

  /** A passed percent rule covers the need on top of the period. */
  lemma {:induction false} PassedRuleCovers(inputs: Inputs, asker: Asker, now: int)
    requires inputs.rule.Some? ==>
               RulePasses(inputs.rule.value, inputs.costSupported, inputs.from, inputs.learned, now,
                          inputs.periodUse, inputs.estimates, asker)
    ensures PercentRule(inputs) ==> inputs.periodUse + Need(inputs) as real <= inputs.rule.value.amount as real
  {}

  /** The grant for unknown usage: the run's own one if it still stands. */
  function OneRunGrant(a: Account, run: RunInfo, now: int, permits: nat, own: Option<Window>): Window {
    own.GetOr(Provisional(a.id, now, (if permits > 0 then "recover:" else "unknown:") + run.id, permits)).(recoveryPermits := permits)
  }

  lemma {:induction false} GrantIsSynthetic(a: Account, run: RunInfo, now: int, permits: nat, own: Option<Window>)
    requires own.Some? ==> Synthetic(own.value)
    ensures Live(OneRunGrant(a, run, now, permits, own), now)
  {}

  /** Nothing binds and a window set by hand has yet to begin. */
  ghost predicate OnlyUpcoming(listing: seq<Window>, now: int) {
    NoneBinds(listing, now) && exists w <- listing :: w.readAt.None? && w.startsAt > now
  }

  /** The first window set by hand that has not begun. */
  method FirstUpcoming(windows: seq<Window>, now: int) returns (until: Option<int>)
    ensures until.None? <==> forall w <- windows :: w.readAt.None? ==> w.startsAt <= now
    ensures until.Some? ==> until.value > now && exists w <- windows :: w.readAt.None? && w.startsAt == until.value
  {
    for i := 0 to |windows|
      invariant forall w <- windows[..i] :: w.readAt.None? ==> w.startsAt <= now
    {
      assert windows[..i + 1] == windows[..i] + [windows[i]];
      if windows[i].readAt.None? && windows[i].startsAt > now { return Some(windows[i].startsAt); }
    }
    assert windows[..|windows|] == windows;
    until := None;
  }

  /** Which windows are read does not depend on what they have reserved. */
  lemma {:induction false} ListedStays(before: seq<Window>, after: seq<Window>, now: int)
    requires forall b <- before :: Regular(b, now) || FreshFact(b, now)
    requires forall w <- after :: exists b <- before :: w == b.(reserved := w.reserved)
    ensures forall w <- after :: Regular(w, now) || FreshFact(w, now)
  {
    forall w | w in after
      ensures Regular(w, now) || FreshFact(w, now)
    {
      var b :| b in before && w == b.(reserved := w.reserved);
    }
  }

  /** The windows read after the exclusion. */
  lemma {:induction false} ListingRead(regular: seq<Window>, after: seq<Window>, sharedQuota: bool, now: int, inputs: Inputs)
    requires forall w <- regular :: Stored(w) && (Regular(w, now) || FreshFact(w, now))
    requires forall h <- inputs.ownHolds :: h.units >= 1
    requires Takable(regular, inputs, sharedQuota)
    requires inputs.exceptRun == "" ==> after == regular
    requires inputs.exceptRun != "" ==> Projected(inputs.table, inputs.ownHolds, regular, after, sharedQuota)
    ensures after == TakenOut(regular, inputs, sharedQuota)
    ensures forall w <- after :: Stored(w) && (Regular(w, now) || FreshFact(w, now))
  {
    hide Stored, Covers, Projected, Matched, Regular, FreshFact, TakenOut;
    ExcludedIsTakenOut(regular, after, inputs, sharedQuota);
    ExcludedIsStored(inputs.table, inputs.exceptRun, inputs.ownHolds, regular, after, sharedQuota);
    ListedStays(regular, after, now);
  }

  /** The listed windows without the run's own holds, and of those the ones that bind now. */
  method BindingWindows(a: Account, regular: seq<Window>, now: int, inputs: Inputs)
    returns (r: Result<seq<Window>, Refusal>)
    requires forall w <- regular :: Stored(w) && (Regular(w, now) || FreshFact(w, now))
    requires forall h <- inputs.ownHolds :: h.units >= 1
    ensures r.Ok? <==> Takable(regular, inputs, a.sharedQuota) && !OnlyUpcoming(TakenOut(regular, inputs, a.sharedQuota), now)
    ensures r.Ok? ==> forall w :: w in r.value <==> Binds(TakenOut(regular, inputs, a.sharedQuota), w, now)
    ensures r.Ok? ==> forall w <- r.value :: Live(w, now)
  {
    hide Stored, Covers, Projected, Matched, Live, TakenOut, Regular, FreshFact, Binds, NoneBinds, Synthetic;
    var projected := Exclude(inputs.table, inputs.exceptRun, inputs.ownHolds, regular, a.sharedQuota);
    if projected.Err? { return Err(Refusal.Unreadable); }
    ListingRead(regular, projected.value, a.sharedQuota, now, inputs);
    var binding := BindingNow(projected.value, now);
    BindingIsLive(projected.value, binding, now);
    NothingBinds(projected.value, binding, now);
    if binding == [] {
      var upcoming := FirstUpcoming(projected.value, now);
      if upcoming.Some? { return Err(Waiting(Wait("allowance", upcoming, false))); }
    }
    r := Ok(binding);
  }

  lemma {:induction false} NothingBinds(windows: seq<Window>, active: seq<Window>, now: int)
    requires forall w :: w in active <==> Binds(windows, w, now)
    ensures active == [] <==> NoneBinds(windows, now)
  {
    hide Binds;
    if active != [] { assert active[0] in active; }
  }

  // ---------------------------------------------- when a run is let through

  /** The windows admission reads: the regular ones and the fresh facts, without the run's own holds. */
  function ListingOf(a: Account, all: seq<Window>, facts: seq<Window>, now: int, inputs: Inputs): seq<Window> {
    TakenOut(RegularOf(all, now) + facts, inputs, a.sharedQuota)
  }

  /** The windows that must let the run through: those that bind, and a one-run grant without any or under recovery. */
  ghost predicate Candidate(w: Window, a: Account, run: RunInfo, now: int, all: seq<Window>, facts: seq<Window>, inputs: Inputs) {
    var listing := ListingOf(a, all, facts, now, inputs);
    || Binds(listing, w, now)
    || ((NoneBinds(listing, now) || inputs.permits > 0)
        && w == OneRunGrant(a, run, now, inputs.permits, OwnGrant(all, run, now, a.sharedQuota, inputs)))
  }

  /** No vendor reading binds. */
  ghost predicate UnknownOnly(a: Account, now: int, all: seq<Window>, facts: seq<Window>, inputs: Inputs) {
    forall w :: Binds(ListingOf(a, all, facts, now, inputs), w, now) ==> w.readAt.None?
  }

  /** The gates before the windows are judged. */
  ghost predicate Readable(a: Account, run: RunInfo, clock: Clock, all: seq<Window>, facts: seq<Window>, inputs: Inputs) {
    && GatesOpen(a, run, clock, inputs)
    && GrantsReadable(all, run, clock.now, a.sharedQuota, inputs)
    && Takable(RegularOf(all, clock.now) + facts, inputs, a.sharedQuota)
    && !OnlyUpcoming(ListingOf(a, all, facts, clock.now, inputs), clock.now)
  }

  /** When a run is let through. */
  ghost predicate Admits(a: Account, run: RunInfo, clock: Clock, all: seq<Window>, facts: seq<Window>,
                         pace: Window -> Pacing, learnedHold: Window -> int, inputs: Inputs) {
    var need := if run.claiming then 0 else 1;
    && Readable(a, run, clock, all, facts, inputs)
    && (inputs.policy.floor > 0 ==> exists w :: Candidate(w, a, run, clock.now, all, facts, inputs) && !Synthetic(w))
    && (forall w :: Candidate(w, a, run, clock.now, all, facts, inputs) ==>
          var p := Prepared(w, clock.now, pace, learnedHold, inputs.policy);
          HardRoom(p, need) && BudgetRoom(p, need))
    && (UnknownOnly(a, clock.now, all, facts, inputs) ==> clock.openNow)
    && RuleLets(run, clock.now, inputs)
  }

  /** The checks of a listing are checks of its members. */
  lemma {:induction false} PassesByMembers(windows: seq<Window>, unknownOnly: bool, a: Account, run: RunInfo, clock: Clock,
                                           all: seq<Window>, facts: seq<Window>, pace: Window -> Pacing,
                                           learnedHold: Window -> int, inputs: Inputs)
    requires Readable(a, run, clock, all, facts, inputs)
    requires forall w :: w in windows <==> Candidate(w, a, run, clock.now, all, facts, inputs)
    requires unknownOnly <==> UnknownOnly(a, clock.now, all, facts, inputs)
    ensures Passes(windows, unknownOnly, run, clock, pace, learnedHold, inputs) <==>
            Admits(a, run, clock, all, facts, pace, learnedHold, inputs)
  {
    hide Readable, Candidate, UnknownOnly, RuleLets, Prepared, HardRoom, BudgetRoom, Synthetic;
    assert forall i :: 0 <= i < |windows| ==> windows[i] in windows;
    if Passes(windows, unknownOnly, run, clock, pace, learnedHold, inputs) {
      forall w | Candidate(w, a, run, clock.now, all, facts, inputs)
        ensures var p := Prepared(w, clock.now, pace, learnedHold, inputs.policy);
                HardRoom(p, if run.claiming then 0 else 1) && BudgetRoom(p, if run.claiming then 0 else 1)
      {
        var i :| 0 <= i < |windows| && windows[i] == w;
      }
    }
  }

  /** The windows returned are the candidates, prepared and lowered. */
  lemma {:induction false} ReturnedMembers(windows: seq<Window>, returned: seq<Window>, a: Account, run: RunInfo, clock: Clock,
                                           all: seq<Window>, facts: seq<Window>, pace: Window -> Pacing,
                                           learnedHold: Window -> int, inputs: Inputs)
    requires forall w :: w in windows <==> Candidate(w, a, run, clock.now, all, facts, inputs)
    requires |returned| == |windows|
    requires forall i :: 0 <= i < |windows| ==>
               returned[i] == Returned(Prepared(windows[i], clock.now, pace, learnedHold, inputs.policy), run, inputs)
    ensures forall v :: v in returned <==>
              exists w :: Candidate(w, a, run, clock.now, all, facts, inputs)
                          && v == Returned(Prepared(w, clock.now, pace, learnedHold, inputs.policy), run, inputs)
  {
    hide Candidate, Returned, Prepared;
    forall v | v in returned
      ensures exists w :: Candidate(w, a, run, clock.now, all, facts, inputs)
                          && v == Returned(Prepared(w, clock.now, pace, learnedHold, inputs.policy), run, inputs)
    {
      var i :| 0 <= i < |returned| && returned[i] == v;
      assert windows[i] in windows;
    }
    forall w | Candidate(w, a, run, clock.now, all, facts, inputs)
      ensures Returned(Prepared(w, clock.now, pace, learnedHold, inputs.policy), run, inputs) in returned
    {
      var i :| 0 <= i < |windows| && windows[i] == w;
      assert returned[i] in returned;
    }
  }

  /**
   * `admissionInputs`: the early gates, the run's own holds projected out, the
   * windows that bind now (or a one-run grant), pacing, floors and learned
   * holds; then the hard allowance, the person's clock, the period rule, which
   * lowers budgets in place, and the paced budgets as they were before it. A
   * run is let through exactly when all of them hold, and gets exactly the
   * windows that had to let it through.
   *
   * For a run that does not hold its reservation yet, every measured window
   * returned passes the binding gate for one unit, even under a lowered budget;
   * without a percent rule it passes for the window's whole learned hold, and
   * under one exactly when the rule still covers that hold.
   */
  method AdmissionInputs(a: Account, run: RunInfo, clock: Clock, all: seq<Window>, facts: seq<Window>,
                         pace: Window -> Pacing, learnedHold: Window -> int, inputs: Inputs)
    returns (r: Result<seq<Window>, Refusal>)
    requires InputsOk(all, facts, clock.now, inputs)
    ensures !GatesOpen(a, run, clock, inputs) ==> r.Err? && r.error.Waiting? && WaitsAtGate(a, run, clock, inputs, r.error.wait)
    ensures r.Ok? <==> Admits(a, run, clock, all, facts, pace, learnedHold, inputs)
    ensures r.Ok? ==> forall v :: v in r.value <==>
              exists w :: Candidate(w, a, run, clock.now, all, facts, inputs)
                          && v == Returned(Prepared(w, clock.now, pace, learnedHold, inputs.policy), run, inputs)
    ensures r.Ok? && !run.claiming ==> forall w <- r.value :: Measured(w) ==> Promised(w, clock.now, inputs)
  {
    hide RuleLets, EarlyWait, GatesOpen, WaitsAtGate, Regular, FreshFact, Promised, Live, Stored, Binds, NoneBinds, Takable, TakenOut, GrantsReadable,
      Fits, Measured, PolicyOk, Returned, Prepared, OneRunGrant, Synthetic, Passes, Admits, Candidate, UnknownOnly, OnlyUpcoming;
    var now := clock.now;
    var early := EarlyWait(a, run, clock, inputs);
    EarlyWaitIsGates(a, run, clock, inputs);
    AdmittedIsReadable(a, run, clock, all, facts, pace, learnedHold, inputs);
    if early.Some? { return Err(Waiting(early.value)); }
    var split := SplitWindows(all, now, run, a.sharedQuota, inputs);
    if split.Err? { return Err(Refusal.Unreadable); }
    var (listed, own) := split.value;
    var found := BindingWindows(a, listed + facts, now, inputs);
    if found.Err? { return Err(found.error); }
    var binding := found.value;
    var unknownOnly := forall w <- binding :: w.readAt.None?;
    var windows := binding;
    if binding == [] || inputs.permits > 0 {
      windows := windows + [OneRunGrant(a, run, now, inputs.permits, own)];
    }
    GrantIsSynthetic(a, run, now, inputs.permits, own);
    CandidatesListed(binding, windows, unknownOnly, a, run, now, all, facts, inputs);
    PassesByMembers(windows, unknownOnly, a, run, clock, all, facts, pace, learnedHold, inputs);
    r := CheckPrepared(windows, unknownOnly, run, clock, pace, learnedHold, inputs);
    if r.Ok? { ReturnedMembers(windows, r.value, a, run, clock, all, facts, pace, learnedHold, inputs); }
  }

  lemma {:induction false} AdmittedIsReadable(a: Account, run: RunInfo, clock: Clock, all: seq<Window>, facts: seq<Window>,
                                              pace: Window -> Pacing, learnedHold: Window -> int, inputs: Inputs)
    ensures Admits(a, run, clock, all, facts, pace, learnedHold, inputs) ==> Readable(a, run, clock, all, facts, inputs)
  {
    hide Readable, Candidate, UnknownOnly, RuleLets, Prepared, HardRoom, BudgetRoom, Synthetic;
  }

  lemma {:induction false} CandidatesListed(binding: seq<Window>, windows: seq<Window>, unknownOnly: bool, a: Account, run: RunInfo,
                                            now: int, all: seq<Window>, facts: seq<Window>, inputs: Inputs)
    requires forall w :: w in binding <==> Binds(ListingOf(a, all, facts, now, inputs), w, now)
    requires unknownOnly <==> forall w <- binding :: w.readAt.None?
    requires windows == if binding == [] || inputs.permits > 0
                        then binding + [OneRunGrant(a, run, now, inputs.permits, OwnGrant(all, run, now, a.sharedQuota, inputs))]
                        else binding
    ensures forall w :: w in windows <==> Candidate(w, a, run, now, all, facts, inputs)
    ensures unknownOnly <==> UnknownOnly(a, now, all, facts, inputs)
  {
    hide Binds, OneRunGrant, OwnGrant, ListingOf;
    if binding != [] { assert binding[0] in binding; }
  }

  // --------------------------------------------- the binding gate and the ledger

  /** The stored row holds no more than the window the gate read. */
  predicate StandsFor(table: Windows, w: Window) {
    && w.id in table
    && table[w.id].used + table[w.id].reserved <= w.used + w.reserved
    && table[w.id].allowance >= w.allowance
  }

  /**
   * What the binding gate lets through, the reserving loop grants: distinct
   * windows that each fit their estimate are all held. The percent estimate
   * grows while the loop runs, but only windows set by hand read estimates, and
   * those are never in percent.
   */
  lemma {:induction false} FittingWindowsAreGranted(table: Windows, ws: seq<Window>, estimates: map<string, int>,
                                                    read: map<string, int>, now: int)
    requires forall i, j :: 0 <= i < j < |ws| ==> ws[i].id != ws[j].id
    requires forall w <- ws :: StandsFor(table, w) && (w.readAt.None? ==> w.unit != "percent")
    requires forall w <- ws :: Fits(w, now, WindowEstimate(w, read)).Some?
    requires forall unit :: unit != "percent" ==> EstimateOf(estimates, unit) == EstimateOf(read, unit)
    ensures Grant(table, ws, estimates).Some?
    decreases |ws|
  {
    if ws != [] {
      var w := ws[0];
      assert ws == [w] + ws[1..];
      var held := WindowEstimate(w, estimates);
      assert held == WindowEstimate(w, read);
      FitsTakes(table, w, held, now);
      var raised := Raise(table, w.id, held);
      forall v | v in ws[1..]
        ensures StandsFor(raised, v) && v in ws
      {
        assert v.id != w.id;
      }
      FittingWindowsAreGranted(raised, ws[1..], Grow(estimates, w, held), read, now);
    }
  }

  lemma {:induction false} FitsTakes(table: Windows, w: Window, held: int, now: int)
    requires StandsFor(table, w) && Fits(w, now, held).Some?
    ensures Takes(table, w.id, held)
  {}

  /** What advice assumes a window is asked for. */
  function Advised(w: Window): int { MaxInt(1, WindowEstimate(w, map[])) }

  /** `windowWait`: the first window that does not fit what it is asked for, waiting for a reading or its reset. */
  method WindowWait(windows: seq<Window>, now: int) returns (wait: Option<Wait>)
    ensures wait.None? <==> forall w <- windows :: Fits(w, now, Advised(w)).Some?
    ensures wait.Some? ==>
              exists i :: 0 <= i < |windows| && Fits(windows[i], now, Advised(windows[i])).None?
                && (forall j :: 0 <= j < i ==> Fits(windows[j], now, Advised(windows[j])).Some?)
                && wait.value == if Unread(windows[i], now) then Wait("reading", None, false)
                                 else Wait("allowance", Some(windows[i].endsAt), false)
  {
    hide Fits, Advised, Unread;
    for i := 0 to |windows|
      invariant forall j :: 0 <= j < i ==> Fits(windows[j], now, Advised(windows[j])).Some?
    {
      var w := windows[i];
      if Fits(w, now, Advised(w)).None? {
        assert w in windows;
        return Some(if Unread(w, now) then Wait("reading", None, false) else Wait("allowance", Some(w.endsAt), false));
      }
    }
    wait := None;
  }

  /** A measured window that stands for no fresh reading. */
  predicate Unread(w: Window, now: int) {
    w.readAt.Some? && (Synthetic(w) || (now - w.readAt.value > FRESH && w.source != "estimate"))
  }

  /** For measured windows advice and the binding gate ask for the same, whatever the run's estimates. */
  lemma {:induction false} AdviceAsksWhatBinds(w: Window, estimates: map<string, int>)
    requires w.readAt.Some?
    ensures Advised(w) == WindowEstimate(w, estimates)
  {}

  /**
   * Advice after admission: of the windows returned to a run without a
   * reservation, a measured one is waited for exactly when the percent rule no
   * longer covers its hold, which is exactly when the binding gate refuses it.
   */
  lemma {:induction false} AdviceAgreesWithBinding(w: Window, now: int, inputs: Inputs, estimates: map<string, int>)
    requires Measured(w) && Promised(w, now, inputs)
    ensures Fits(w, now, Advised(w)).Some? <==> Fits(w, now, WindowEstimate(w, estimates)).Some?
    ensures Fits(w, now, WindowEstimate(w, estimates)).Some? <==>
            (PercentRule(inputs) ==> inputs.periodUse + Advised(w) as real <= inputs.rule.value.amount as real)
  {
    AdviceAsksWhatBinds(w, estimates);
    hide Fits;
  }

  /**
   * Under a percent rule the promise is for one unit only: a learned hold above
   * the run's percent need can be refused by the binding gate.
   */
  lemma {:induction false} HoldMayExceedRule(w: Window, now: int)
    requires w.readAt == Some(now) && w.allowed && !w.retired && !Synthetic(w) && w.startsAt <= now < w.endsAt
    requires w.used == 0 && w.reserved == 0 && w.allowance == 100 && w.usageCeiling.None? && w.budget == Some(100.0) && w.hold == 5
    ensures var l := LowerBudget(Rule(10, "percent"), 8.0, 1, FreshRun, w);
            Fits(w, now, 5).Some? && Fits(l, now, 1).Some? && Fits(l, now, 5).None?
  {}
}
