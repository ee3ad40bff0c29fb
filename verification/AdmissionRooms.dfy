/**
 * What admission asks of the windows, said of the windows, the policy and the
 * rule alone (internal/agentaccounts/admission.go, eligibility.go, limits.go).
 */
module AdmissionRooms {
  import opened Wrappers
  import opened Pace
  import opened Limits
  import opened ActiveWindows
  import A = Admission

  // --------------------------------------------------------- what is read

  predicate OneRun(w: Window) { w.kind == "refresh" || w.kind == "blind" }

  /** Ten minutes. */
  predicate Recent(w: Window, now: int) { w.readAt.Some? && now - w.readAt.value <= 600_000_000_000 }

  /** A listed window is read unless it is a grant, a fact, kept for pairing, an estimate, or a reading past ten minutes. */
  predicate Read(w: Window, now: int) {
    && !OneRun(w) && w.kind != "fact" && !w.pairingVerification
    && (w.readAt.None? || (w.source != "estimate" && Recent(w, now)))
  }

  /** What is read: such windows and the facts, without what the run itself holds. */
  lemma {:induction false} ListingTells(a: A.Account, all: seq<Window>, facts: seq<Window>, now: int, inputs: A.Inputs, v: Window)
    ensures v in A.ListingOf(a, all, facts, now, inputs) <==>
            exists w :: ((w in all && Read(w, now)) || w in facts) && v == A.Taken(w, inputs, a.sharedQuota)
  {
    hide A.Taken;
    var read := A.RegularOf(all, now) + facts;
    var listing := A.ListingOf(a, all, facts, now, inputs);
    assert forall w: Window :: A.Regular(w, now) <==> Read(w, now);
    if v in listing {
      var i :| 0 <= i < |listing| && listing[i] == v;
      assert read[i] in read;
    }
    forall w | ((w in all && Read(w, now)) || w in facts) && v == A.Taken(w, inputs, a.sharedQuota)
      ensures v in listing
    {
      assert w in read;
      var i :| 0 <= i < |read| && read[i] == w;
      assert listing[i] == v;
    }
  }

  // --------------------------------------------------------- what binds

  /** The same limit of the account. */
  predicate SameKey(a: Window, b: Window) { a.kind + "/" + a.bucket == b.kind + "/" + b.bucket }

  /** At its place the window is the newest reading of its limit; of equally new ones the first listed. */
  predicate NewestAt(listing: seq<Window>, i: nat)
    requires i < |listing|
  {
    listing[i].readAt.Some? &&
    forall j :: 0 <= j < |listing| && j != i && listing[j].readAt.Some? && SameKey(listing[j], listing[i]) ==>
      listing[j].readAt.value < listing[i].readAt.value || (i < j && listing[j].readAt.value == listing[i].readAt.value)
  }

  ghost predicate NewestOf(listing: seq<Window>, w: Window) {
    exists i :: 0 <= i < |listing| && listing[i] == w && NewestAt(listing, i)
  }

  /** The vendor denied it lately, and the window is still open. */
  predicate FreshDenial(w: Window, now: int) { !w.retired && now < w.endsAt && !w.allowed && Recent(w, now) }

  /**
   * Under a fresh denial nothing binds. Otherwise the windows set by hand that
   * are open now do, and, unless one of them is denied or yet to begin, the
   * newest readings that are neither retired nor past their reset.
   */
  ghost predicate BindsNow(listing: seq<Window>, w: Window, now: int) {
    && w in listing && (forall d <- listing :: NewestOf(listing, d) ==> !FreshDenial(d, now))
    && (if w.readAt.None? then w.startsAt <= now < w.endsAt
        else
          && NewestOf(listing, w) && !w.retired && now < w.endsAt
          && forall d <- listing :: NewestOf(listing, d) && !d.retired && now < d.endsAt ==> d.allowed && d.startsAt <= now)
  }

  lemma {:induction false} NewestAtLast(listing: seq<Window>, i: nat)
    requires i < |listing| - 1
    ensures var front, last := listing[..|listing| - 1], listing[|listing| - 1];
            NewestAt(listing, i) <==>
            NewestAt(front, i)
            && !(last.readAt.Some? && SameKey(last, listing[i]) && last.readAt.value > listing[i].readAt.value)
  {
    var front := listing[..|listing| - 1];
    assert forall j :: 0 <= j < |front| ==> front[j] == listing[j];
    hide SameKey;
  }

  lemma {:induction false} NewestIsFirst(listing: seq<Window>, key: string)
    ensures match Newest(listing, key)
            case None => forall w <- listing :: w.readAt.None? || Key(w) != key
            case Some(n) => exists i :: 0 <= i < |listing| && listing[i] == n && NewestAt(listing, i) && Key(n) == key
  {
    if listing != [] {
      var front, last := listing[..|listing| - 1], listing[|listing| - 1];
      NewestIsFirst(front, key);
      assert listing == front + [last];
      NewestIsMeasured(front, key);
      var prior := Newest(front, key);
      if Newest(listing, key) == prior && prior.Some? {
        var i :| 0 <= i < |front| && front[i] == prior.value && NewestAt(front, i);
        assert listing[i] == prior.value;
        NewestAtLast(listing, i);
      } else if Newest(listing, key).Some? {
        LastIsNewest(listing, key);
      }
    }
  }

  lemma {:induction false} LastIsNewest(listing: seq<Window>, key: string)
    requires listing != [] && Key(listing[|listing| - 1]) == key && listing[|listing| - 1].readAt.Some?
    requires forall w <- listing[..|listing| - 1] ::
               w.readAt.Some? && Key(w) == key ==> w.readAt.value < listing[|listing| - 1].readAt.value
    ensures NewestAt(listing, |listing| - 1)
  {
    forall j | 0 <= j < |listing| - 1 && listing[j].readAt.Some? && SameKey(listing[j], listing[|listing| - 1])
      ensures listing[j].readAt.value < listing[|listing| - 1].readAt.value
    {
      assert listing[..|listing| - 1][j] == listing[j];
      assert listing[j] in listing[..|listing| - 1];
    }
  }

  lemma {:induction false} NewestTells(listing: seq<Window>, w: Window)
    ensures IsNewest(listing, w) <==> NewestOf(listing, w)
  {
    NewestIsFirst(listing, Key(w));
    hide Newest;
    if NewestOf(listing, w) {
      var i :| 0 <= i < |listing| && listing[i] == w && NewestAt(listing, i);
      assert w in listing;
      var n := Newest(listing, Key(w)).value;
      var k :| 0 <= k < |listing| && listing[k] == n && NewestAt(listing, k) && Key(n) == Key(w);
      assert SameKey(listing[k], listing[i]) && SameKey(listing[i], listing[k]);
      hide SameKey;
      assert k == i;
    }
  }

  lemma {:induction false} BindsTells(listing: seq<Window>, w: Window, now: int)
    ensures Binds(listing, w, now) <==> BindsNow(listing, w, now)
  {
    forall d | d in listing
      ensures IsNewest(listing, d) <==> NewestOf(listing, d)
      ensures NewestOf(listing, d) ==> d.readAt.Some?
      ensures Denies(d, now) <==> FreshDenial(d, now)
    {
      NewestTells(listing, d);
    }
    hide IsNewest, NewestOf, Denies, FreshDenial;
  }

  // -------------------------------------------------- the window as judged

  /** The whole units that a floor in percent leaves of an allowance, as the code rounds them. */
  predicate FloorLeaves(units: int, allowance: int, floor: int) {
    if allowance <= 0 || floor >= 100 then units == 0
    else 0 <= units <= allowance && 100 * units <= allowance * (100 - floor) < 100 * (units + 1)
  }

  /** Its dates, use, reservations and owner stay. */
  predicate KeepsFacts(w: Window, p: Window) {
    p == w.(budget := p.budget, share := p.share, reserveUntil := p.reserveUntil, usageCeiling := p.usageCeiling,
            paceModel := p.paceModel, burstRatio := p.burstRatio, hold := p.hold)
  }

  /** A measured window gets the paced budget. */
  ghost predicate PacedAs(w: Window, p: Window, pace: Window -> A.Pacing) {
    if w.readAt.None? then p.budget == w.budget && p.share == w.share && p.reserveUntil == w.reserveUntil
    else p.budget == Some(pace(w).budget) && p.share == pace(w).share && p.reserveUntil == pace(w).reserveUntil
  }

  /** A floor leaves a ceiling; an active policy its posture; and the boost adds to the burst. */
  predicate PosedAs(w: Window, p: Window, policy: A.UsagePolicy) {
    && (policy.floor <= 0 ==> p.usageCeiling == w.usageCeiling)
    && (policy.floor > 0 ==> p.usageCeiling.Some? && FloorLeaves(p.usageCeiling.value, w.allowance, policy.floor))
    && (if policy.active && w.readAt.Some?
        then p.paceModel == (if policy.maxout then "unrestricted" else "steady") && IsLesser(p.burstRatio, policy.boost as real / 100.0)
        else p.paceModel == w.paceModel && IsLesser(p.burstRatio, w.burstRatio + policy.boost as real / 100.0))
  }

  /** A recent reading, or an estimate, holds what was learned for the window so judged. */
  ghost predicate HeldAs(w: Window, p: Window, now: int, learnedHold: Window -> int) {
    p.hold == if Recent(w, now) || (w.readAt.Some? && w.source == "estimate") then learnedHold(p.(hold := w.hold)) else w.hold
  }

  /** What a window is judged by; a one-run grant is judged as it is. */
  ghost predicate JudgedAs(w: Window, p: Window, now: int, pace: Window -> A.Pacing, learnedHold: Window -> int, policy: A.UsagePolicy) {
    if OneRun(w) then p == w
    else KeepsFacts(w, p) && PacedAs(w, p, pace) && PosedAs(w, p, policy) && HeldAs(w, p, now, learnedHold)
  }

  /** The boost adds to the burst, up to the whole window. */
  predicate IsLesser(burst: real, sum: real) { burst <= 1.0 && burst <= sum && (burst == 1.0 || burst == sum) }

  lemma {:induction false} CeilingTells(allowance: int, floor: int)
    requires 0 < floor <= 80 && allowance <= MAX_INT64
    ensures FloorLeaves(AllowedUnits(allowance, (100 - floor) as real / 100.0), allowance, floor)
  {
    if allowance > 0 {
      var f := (100 - floor) as real / 100.0;
      assert f * allowance as real * 100.0 == (allowance * (100 - floor)) as real;
      FloorOfHundredths(allowance * (100 - floor), f * allowance as real);
    }
  }

  /** A hundredth part is far enough from the next whole unit for the tolerance not to matter. */
  lemma {:induction false} FloorOfHundredths(n: int, x: real)
    requires n >= 0 && x * 100.0 == n as real
    ensures var units := (x + 0.000000001).Floor;
            0 <= units && 100 * units <= n < 100 * (units + 1)
  {
    var units := (x + 0.000000001).Floor;
    assert 100.0 * units as real <= n as real + 0.0000001;
    assert (100 * units) as real == 100.0 * units as real;
  }

  /** The three stages, each touching its own fields. */
  lemma {:induction false} StagesTouch(w: Window, now: int, pacing: A.Pacing, hold: int, policy: A.UsagePolicy)
    ensures var q := A.Paced(w, pacing);
            q == w.(budget := q.budget, share := q.share, reserveUntil := q.reserveUntil)
    ensures var f := A.Floored(w, policy);
            f == w.(usageCeiling := f.usageCeiling, paceModel := f.paceModel, burstRatio := f.burstRatio)
    ensures var h := A.WithHold(w, hold, now);
            h == w.(hold := h.hold)
  {
    hide AllowedUnits;
  }

  lemma {:induction false} PacedTells(w: Window, pace: Window -> A.Pacing)
    requires !OneRun(w)
    ensures PacedAs(w, A.Paced(w, pace(w)), pace)
  {}

  lemma {:induction false} FlooredTells(w: Window, policy: A.UsagePolicy)
    requires A.PolicyOk(policy) && w.allowance <= MAX_INT64 && !OneRun(w)
    ensures PosedAs(w, A.Floored(w, policy), policy)
  {
    if policy.floor > 0 { CeilingTells(w.allowance, policy.floor); }
    hide AllowedUnits, FloorLeaves;
  }

  lemma {:induction false} HoldTells(w: Window, now: int, learnedHold: Window -> int)
    requires !OneRun(w)
    ensures HeldAs(w, A.WithHold(w, learnedHold(w), now), now, learnedHold)
  {
    assert A.WithHold(w, learnedHold(w), now).(hold := w.hold) == w;
  }

  lemma {:induction false} PreparedTells(w: Window, now: int, pace: Window -> A.Pacing, learnedHold: Window -> int, policy: A.UsagePolicy)
    requires A.PolicyOk(policy) && w.allowance <= MAX_INT64
    ensures JudgedAs(w, A.Prepared(w, now, pace, learnedHold, policy), now, pace, learnedHold, policy)
  {
    var q := A.Paced(w, pace(w));
    var f := A.Floored(q, policy);
    var p := A.WithHold(f, learnedHold(f), now);
    if !OneRun(w) {
      StagesTouch(w, now, pace(w), 0, policy);
      StagesTouch(q, now, pace(w), 0, policy);
      StagesTouch(f, now, pace(w), learnedHold(f), policy);
      PacedTells(w, pace);
      FlooredTells(q, policy);
      HoldTells(f, now, learnedHold);
      assert p.(hold := w.hold) == f && f.hold == w.hold;
      hide A.Paced, A.Floored, A.WithHold, FloorLeaves, IsLesser;
    }
  }

  // ------------------------------------------------------------- its room

  /** The units asked of a window: none of a run that holds its reservation, else one or what was learned. */
  function Asked(p: Window, claiming: bool): int { if claiming then 0 else if p.hold > 1 then p.hold else 1 }

  /** The use and all reservations stay within the allowance or the ceiling, and the reservations within the paced budget. */
  predicate HasRoom(p: Window, claiming: bool) {
    var held := p.reserved + Asked(p, claiming);
    && (p.usageCeiling.None? ==> p.used + held <= p.allowance)
    && (p.usageCeiling.Some? ==> p.used + held <= p.usageCeiling.value)
    && (p.budget.Some? ==> held as real <= p.budget.value)
  }

  lemma {:induction false} RoomTells(p: Window, claiming: bool)
    ensures var need := if claiming then 0 else 1;
            A.HardRoom(p, need) && A.BudgetRoom(p, need) <==> HasRoom(p, claiming)
  {}

  // ------------------------------------------------------- the period rule

  /** A percent rule leaves a measured window at most what is left of its amount, on top of what the window has reserved. */
  ghost predicate LoweredTo(p: Window, v: Window, claimingWorker: bool, inputs: A.Inputs) {
    if inputs.rule.None? || inputs.rule.value.unit != "percent" || p.readAt.None? then v == p
    else
      var need := if claimingWorker then A.Need(inputs) as real else 0.0;
      var left := inputs.rule.value.amount as real - inputs.periodUse + p.reserved as real - need;
      && v == p.(budget := v.budget) && v.budget.Some? && v.budget.value <= left
      && (p.budget.Some? ==> v.budget.value <= p.budget.value)
      && (v.budget == p.budget || v.budget == Some(left))
  }

  lemma {:induction false} ReturnedTells(p: Window, run: A.RunInfo, inputs: A.Inputs)
    ensures LoweredTo(p, A.Returned(p, run, inputs), run.claiming && !run.nativeRoot, inputs)
  {}

  // ------------------------------------------------------ the one-run grant

  /** A grant that still stands for the claiming run it was made for. */
  predicate StandsFor(w: Window, run: A.RunInfo, now: int) {
    && OneRun(w) && run.claiming && !w.retired && w.endsAt > now
    && (w.refreshRun == Some(run.id) || (run.nativeRoot && w.bucket == "unknown:" + run.id))
  }

  /** Of the listed windows, the last such grant. */
  ghost predicate LastStanding(all: seq<Window>, run: A.RunInfo, now: int, own: Option<Window>) {
    match own
    case None => forall w <- all :: !StandsFor(w, run, now)
    case Some(w) =>
      exists i :: 0 <= i < |all| && all[i] == w && StandsFor(all[i], run, now)
        && forall j :: i < j < |all| ==> !StandsFor(all[j], run, now)
  }

  lemma {:induction false} LastStandingTells(all: seq<Window>, run: A.RunInfo, now: int)
    ensures LastStanding(all, run, now, A.LastGrant(all, run, now))
  {
    if all != [] {
      var front, last := all[..|all| - 1], all[|all| - 1];
      assert A.Grants(last, run, now) <==> StandsFor(last, run, now);
      assert all == front + [last];
      if !StandsFor(last, run, now) {
        LastStandingTells(front, run, now);
        var own := A.LastGrant(front, run, now);
        assert A.LastGrant(all, run, now) == own;
        hide A.LastGrant, A.Grants, StandsFor;
        if own.Some? {
          var i :| 0 <= i < |front| && front[i] == own.value && StandsFor(front[i], run, now)
                   && forall j :: i < j < |front| ==> !StandsFor(front[j], run, now);
          assert all[i] == own.value;
        }
      } else {
        assert all[|all| - 1] == last;
      }
    }
  }

  /** The grant for unknown usage: the run's own that still stands, else one unit for five minutes. */
  ghost predicate GrantFor(w: Window, a: A.Account, run: A.RunInfo, now: int, all: seq<Window>, inputs: A.Inputs) {
    exists own: Option<Window> :: LastStanding(all, run, now, own) && GrantOf(w, own, a, run, now, inputs)
  }

  predicate GrantOf(w: Window, own: Option<Window>, a: A.Account, run: A.RunInfo, now: int, inputs: A.Inputs) {
    w == if own.Some? then
           (if run.nativeRoot then A.Taken(own.value, inputs, a.sharedQuota) else own.value).(recoveryPermits := inputs.permits)
         else
           Window("", a.id, now, now + 300_000_000_000, "percent", 1, 0, 0, "unrestricted", 0.0, None, Some(now), true, false, "blind",
                  if inputs.permits == 0 then "unknown:" + run.id else "recover:" + run.id, "estimate", 0,
                  None, None, None, None, false, inputs.permits)
  }

  lemma {:induction false} OneLastStanding(all: seq<Window>, run: A.RunInfo, now: int, a: Option<Window>, b: Option<Window>)
    requires LastStanding(all, run, now, a) && LastStanding(all, run, now, b)
    ensures a == b
  {
    hide StandsFor;
    if a.Some? && b.Some? {
      var i :| 0 <= i < |all| && all[i] == a.value && StandsFor(all[i], run, now) && forall j :: i < j < |all| ==> !StandsFor(all[j], run, now);
      var k :| 0 <= k < |all| && all[k] == b.value && StandsFor(all[k], run, now) && forall j :: k < j < |all| ==> !StandsFor(all[j], run, now);
      assert i == k;
    }
  }

  lemma {:induction false} GrantTells(w: Window, a: A.Account, run: A.RunInfo, now: int, all: seq<Window>, inputs: A.Inputs)
    ensures w == A.OneRunGrant(a, run, now, inputs.permits, A.OwnGrant(all, run, now, a.sharedQuota, inputs)) <==>
            GrantFor(w, a, run, now, all, inputs)
  {
    var own := A.LastGrant(all, run, now);
    LastStandingTells(all, run, now);
    forall other | LastStanding(all, run, now, other) ensures other == own { OneLastStanding(all, run, now, other, own); }
    assert w == A.OneRunGrant(a, run, now, inputs.permits, A.OwnGrant(all, run, now, a.sharedQuota, inputs)) <==>
           GrantOf(w, own, a, run, now, inputs) by { hide A.LastGrant, A.Taken; }
    hide A.LastGrant, A.Taken, LastStanding, A.OneRunGrant, A.OwnGrant, GrantOf;
  }

  // --------------------------------------------------------- end to end

  /** A window that must have room: one that binds, or the grant when nothing binds or the account recovers. */
  ghost predicate Judged(w: Window, a: A.Account, run: A.RunInfo, now: int, all: seq<Window>, facts: seq<Window>, inputs: A.Inputs) {
    var listing := A.ListingOf(a, all, facts, now, inputs);
    || BindsNow(listing, w, now)
    || (GrantFor(w, a, run, now, all, inputs) && (inputs.permits > 0 || forall v <- listing :: !BindsNow(listing, v, now)))
  }

  lemma {:induction false} CandidatesAreJudged(a: A.Account, run: A.RunInfo, now: int, all: seq<Window>, facts: seq<Window>,
                                               inputs: A.Inputs)
    ensures forall w :: A.Candidate(w, a, run, now, all, facts, inputs) <==> Judged(w, a, run, now, all, facts, inputs)
  {
    var listing := A.ListingOf(a, all, facts, now, inputs);
    forall w: Window
      ensures Binds(listing, w, now) <==> BindsNow(listing, w, now)
      ensures w == A.OneRunGrant(a, run, now, inputs.permits, A.OwnGrant(all, run, now, a.sharedQuota, inputs)) <==>
              GrantFor(w, a, run, now, all, inputs)
      ensures BindsNow(listing, w, now) ==> w in listing
    {
      BindsTells(listing, w, now);
      GrantTells(w, a, run, now, all, inputs);
    }
    hide Binds, BindsNow, GrantFor, A.OneRunGrant, A.ListingOf, A.OwnGrant;
  }

  /**
   * A run is let through exactly when the gates are open and what the account
   * lists can be read, and then every window judged has room for what is asked
   * of it, a floor finds a window to hold on, unknown usage falls into the
   * person's hours, and the period rule lets it.
   */
  lemma {:induction false} AdmitsExactly(a: A.Account, run: A.RunInfo, clock: A.Clock, all: seq<Window>, facts: seq<Window>,
                                         pace: Window -> A.Pacing, learnedHold: Window -> int, inputs: A.Inputs)
    ensures A.Admits(a, run, clock, all, facts, pace, learnedHold, inputs) <==>
            && A.Readable(a, run, clock, all, facts, inputs)
            && (forall w :: Judged(w, a, run, clock.now, all, facts, inputs) ==>
                  HasRoom(A.Prepared(w, clock.now, pace, learnedHold, inputs.policy), run.claiming))
            && (inputs.policy.floor > 0 ==> exists w :: Judged(w, a, run, clock.now, all, facts, inputs) && !OneRun(w))
            && (clock.openNow || exists w <- A.ListingOf(a, all, facts, clock.now, inputs) ::
                  w.readAt.Some? && BindsNow(A.ListingOf(a, all, facts, clock.now, inputs), w, clock.now))
            && A.RuleLets(run, clock.now, inputs)
  {
    var listing := A.ListingOf(a, all, facts, clock.now, inputs);
    CandidatesAreJudged(a, run, clock.now, all, facts, inputs);
    forall w: Window
      ensures Binds(listing, w, clock.now) <==> BindsNow(listing, w, clock.now)
      ensures BindsNow(listing, w, clock.now) ==> w in listing
      ensures Synthetic(w) <==> OneRun(w)
    {
      BindsTells(listing, w, clock.now);
    }
    forall w: Window
      ensures var p, need := A.Prepared(w, clock.now, pace, learnedHold, inputs.policy), if run.claiming then 0 else 1;
              A.HardRoom(p, need) && A.BudgetRoom(p, need) <==> HasRoom(p, run.claiming)
    {
      RoomTells(A.Prepared(w, clock.now, pace, learnedHold, inputs.policy), run.claiming);
    }
    hide Binds, BindsNow, Judged, A.Candidate, A.Prepared, A.HardRoom, A.BudgetRoom, HasRoom, A.Readable, A.RuleLets, A.ListingOf,
      Synthetic, OneRun;
  }
}
