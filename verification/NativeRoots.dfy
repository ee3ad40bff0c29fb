/**
 * Runs of the native-root ledger, and the transactions as the code runs them:
 * in place, window by window, restored when one is refused.
 */
module NativeRoots {
  import opened Wrappers
  import opened Pace
  import opened NativeLedger
  import IdOrder

  // -------------------------------------------------------------- all runs

  datatype Op =
    | ReserveOp(a: Admission, session: string, epoch: string, budget: Budget, newIds: seq<string>)
    | AbandonOp(account: string, session: string, epoch: string)
    | SetStateOp(session: string, epoch: string, state: HoldState)
    | ExitOp(session: string, epoch: string)
    | OtherOp(id: string, delta: int)
    | ReportOp(id: string, used: int)

  ghost predicate OpAllowed(s: Ledger, op: Op) {
    op.ReserveOp? ==> |op.newIds| == |op.budget.windows| && FreshIds(s.windows, op.newIds)
  }

  ghost function Outcome(s: Ledger, op: Op): Result<Ledger, Denial>
    requires OpAllowed(s, op)
  {
    match op
    case ReserveOp(a, session, epoch, b, newIds) => Reserve(s, a, session, epoch, b, newIds)
    case AbandonOp(account, session, epoch) => Abandon(s, account, session, epoch)
    case SetStateOp(session, epoch, state) => SetState(s, session, epoch, state)
    case ExitOp(session, epoch) => Exit(s, session, epoch)
    case OtherOp(id, delta) => OtherHolder(s, id, delta)
    case ReportOp(id, used) => Report(s, id, used)
  }

  /** A refused transaction rolls back. */
  ghost function Apply(s: Ledger, op: Op): Ledger
    requires OpAllowed(s, op)
  {
    match Outcome(s, op)
    case Ok(t) => t
    case Err(_) => s
  }

  ghost predicate Run(s: Ledger, ops: seq<Op>, t: Ledger)
    decreases |ops|
  {
    if ops == [] then s == t
    else OpAllowed(s, ops[0]) && Run(Apply(s, ops[0]), ops[1..], t)
  }

  /** What no later step may change about the roots so far. */
  ghost predicate Grows(before: seq<Root>, after: seq<Root>) {
    && |before| <= |after|
    && forall k :: 0 <= k < |before| ==>
         && after[k].session == before[k].session && after[k].holds == before[k].holds
         && (before[k].released ==> after[k] == before[k])
  }

  lemma {:induction false} RestateStep(s: Ledger, session: string, r: Root)
    requires Conserved(s) && RootIndex(s.roots, session).Some?
    requires var prior := s.roots[RootIndex(s.roots, session).value];
             !prior.released && r == prior.(state := r.state, released := r.released) && Counts(r)
    ensures Conserved(s.(roots := s.roots[RootIndex(s.roots, session).value := r]))
    ensures Grows(s.roots, s.roots[RootIndex(s.roots, session).value := r])
  {
    var k := RootIndex(s.roots, session).value;
    assert s.roots[k] in s.roots;
    hide Held, Units, UniqueBuckets, HoldsStored;
    RestateConserves(s, k, r, s.windows);
    assert s.(windows := s.windows) == s;
  }

  lemma {:induction false} RowStep(s: Ledger, id: string, row: Row, taken: int)
    requires Conserved(s) && id in s.windows && s.others[id] + taken >= 0
    requires row == s.windows[id].(used := row.used, reserved := s.windows[id].reserved + taken)
    ensures Conserved(s.(windows := s.windows[id := row], others := s.others[id := s.others[id] + taken]))
  {
    hide Held, Units, HoldsStored;
    SameKeysStored(s.windows, s.windows[id := row]);
  }

  /** Every transaction keeps the ledger conserved and only adds to the record of its roots. */
  lemma {:induction false} StepConserves(s: Ledger, op: Op)
    requires Conserved(s) && OpAllowed(s, op)
    ensures Conserved(Apply(s, op)) && Grows(s.roots, Apply(s, op).roots)
  {
    hide Conserved, Held, Units, Grant, MaterializeAll, UnwindHolds, RootIndex, Shifted;
    var t := Apply(s, op);
    match Outcome(s, op)
    case Err(_) =>
    case Ok(_) =>
      match op {
        case ReserveOp(a, session, epoch, b, newIds) =>
          if !a.worker {
            ReserveConserves(s, a, session, epoch, b, newIds);
            assert forall k :: 0 <= k < |s.roots| ==> t.roots[k] == t.roots[..|s.roots|][k];
          }
        case AbandonOp(account, session, epoch) =>
          AbandonIsExact(s, account, session, epoch);
        case SetStateOp(session, epoch, state) =>
          RestateStep(s, session, t.roots[RootIndex(s.roots, session).value]);
        case ExitOp(session, epoch) =>
          RestateStep(s, session, t.roots[RootIndex(s.roots, session).value]);
        case OtherOp(id, delta) =>
          OtherKept(s, id);
          RowStep(s, id, t.windows[id], delta);
        case ReportOp(id, used) =>
          OtherKept(s, id);
          RowStep(s, id, t.windows[id], 0);
          assert s.others[id := s.others[id] + 0] == s.others;
      }
  }

  lemma {:induction false} OtherKept(s: Ledger, id: string)
    requires Conserved(s) && id in s.windows
    ensures id in s.others && s.others[id] >= 0
  {
    hide Held, UniqueBuckets, HoldsStored;
  }

  lemma {:induction false} GrowsOn(a: seq<Root>, b: seq<Root>, c: seq<Root>)
    requires Grows(a, b) && Grows(b, c)
    ensures Grows(a, c)
  {}

  /** Conservation over every interleaving. */
  lemma {:induction false} RunsConserve(s: Ledger, ops: seq<Op>, t: Ledger)
    requires Conserved(s) && Run(s, ops, t)
    ensures Conserved(t) && Grows(s.roots, t.roots)
    decreases |ops|
  {
    hide Conserved, Apply, OpAllowed;
    if ops != [] {
      StepConserves(s, ops[0]);
      RunsConserve(Apply(s, ops[0]), ops[1..], t);
      GrowsOn(s.roots, Apply(s, ops[0]).roots, t.roots);
    }
  }

  const EMPTY_LEDGER: Ledger := Ledger(map[], [], map[])

  lemma {:induction false} EmptyIsConserved()
    ensures Conserved(EMPTY_LEDGER)
  {}

  /** So in every reachable ledger `reserved` is the holds of the roots not abandoned plus the other holders. */
  lemma {:induction false} ReachableLedgersConserve(ops: seq<Op>, t: Ledger)
    requires Run(EMPTY_LEDGER, ops, t)
    ensures forall id <- t.windows :: id in t.others && t.others[id] >= 0 && t.windows[id].reserved == t.others[id] + Held(t.roots, id)
    ensures forall r <- t.roots, h <- r.holds :: h.units >= 1 && h.window in t.windows
  {
    EmptyIsConserved();
    RunsConserve(EMPTY_LEDGER, ops, t);
    hide Run, Held, UniqueBuckets;
  }

  lemma {:induction false} HeldWindowsAreStored(t: Ledger, n: nat)
    requires Conserved(t) && n < |t.roots|
    ensures forall h <- t.roots[n].holds :: h.window in t.windows
  {
    assert t.roots[n] in t.roots;
    hide Held, UniqueBuckets;
  }

  lemma {:induction false} TakenBackAsAdded(before: Windows, reserved: Windows, later: Windows, done: Windows, holds: seq<Hold>)
    requires before.Keys <= reserved.Keys && forall h <- holds :: h.window in reserved
    requires forall id <- reserved :: reserved[id].reserved == ReservedOn(before, id) + Units(holds, id)
    requires done == Shifted(later, holds, -1)
    ensures done.Keys == later.Keys
    ensures forall id <- later :: later[id].reserved - done[id].reserved == ReservedOn(reserved, id) - ReservedOn(before, id)
  {
    hide Units;
    forall id | id in later && id !in reserved
      ensures Units(holds, id) == 0
    {
      assert forall h <- holds :: h.window != id;
      NoUnits(holds, id);
    }
  }

  lemma {:induction false} ReleasedStaysReleased(done: Ledger, n: nat, more: seq<Op>, u: Ledger, account: string, epoch: string)
    requires Conserved(done) && n < |done.roots| && done.roots[n].released && Run(done, more, u)
    ensures Abandon(u, account, done.roots[n].session, epoch) == Err(OwnershipUnconfirmed)
  {
    hide Held, Units, UniqueBuckets, HoldsStored, Run, Abandon;
    RunsConserve(done, more, u);
    AbandonIsExact(u, account, done.roots[n].session, epoch);
    assert u.roots[n] == done.roots[n];
    forall x | x in u.roots && x.session == done.roots[n].session
      ensures x.released
    {
      var i :| 0 <= i < |u.roots| && u.roots[i] == x;
      assert i == n;
    }
  }

  /**
   * Reserve and abandon are inverse through any interleaving: whatever happened
   * in between, abandoning takes back from every window exactly what the
   * reservation added to it, whether it was stored before, made by the
   * reservation or made later, and only once.
   */
  lemma {:induction false} AbandonReturnsReservation(
    s: Ledger, a: Admission, session: string, epoch: string, b: Budget, newIds: seq<string>,
    ops: seq<Op>, t: Ledger, more: seq<Op>, u: Ledger)
    requires Conserved(s) && |newIds| == |b.windows| && FreshIds(s.windows, newIds) && !a.worker
    requires Reserve(s, a, session, epoch, b, newIds).Ok?
    requires Run(Reserve(s, a, session, epoch, b, newIds).value, ops, t)
    requires Abandon(t, a.account, session, epoch).Ok?
    requires Run(Abandon(t, a.account, session, epoch).value, more, u)
    ensures var r := Reserve(s, a, session, epoch, b, newIds).value;
            var done := Abandon(t, a.account, session, epoch).value;
            && done.windows.Keys == t.windows.Keys
            && (forall h <- r.roots[|s.roots|].holds :: h.window in t.windows)
            && forall id <- t.windows ::
                 t.windows[id].reserved - done.windows[id].reserved == ReservedOn(r.windows, id) - ReservedOn(s.windows, id)
    ensures Abandon(u, a.account, session, epoch) == Err(OwnershipUnconfirmed)
  {
    hide Grant, MaterializeAll, UnwindHolds, Held, Units, UniqueBuckets, HoldsStored, Run, RootIndex, Unreleased, Abandon, Reserve,
      FreshIds, Asked, Affordable, ReservedOn, Shifted;
    var r := Reserve(s, a, session, epoch, b, newIds).value;
    var n := |s.roots|;
    ReserveConserves(s, a, session, epoch, b, newIds);
    RunsConserve(r, ops, t);
    AbandonIsExact(t, a.account, session, epoch);
    var done := Abandon(t, a.account, session, epoch).value;
    var k :| 0 <= k < |t.roots| && t.roots[k].session == session
             && done.windows == Shifted(t.windows, t.roots[k].holds, -1)
             && done.roots == t.roots[k := t.roots[k].(released := true, state := Abandoned)];
    var holds := r.roots[n].holds;
    assert t.roots[n].session == session && t.roots[n].holds == holds && t.roots[n] in t.roots;
    assert k == n;
    HeldWindowsAreStored(t, n);
    TakenBackAsAdded(s.windows, r.windows, t.windows, done.windows, holds);
    ReleasedStaysReleased(done, n, more, u, a.account, epoch);
  }

  // ------------------------------------------------------------- occupancy

  /** Only reserving, abandoning and a verified exit change the number of occupied roots. */
  lemma {:induction false} StateNeverFreesARoot(s: Ledger, session: string, epoch: string, state: HoldState,
                                               account: string, computer: string, except: string)
    requires SetState(s, session, epoch, state).Ok?
    ensures RootCount(SetState(s, session, epoch, state).value.roots, account, computer, except)
            == RootCount(s.roots, account, computer, except)
  {
    var k := RootIndex(s.roots, session).value;
    CountUpdate(s.roots, k, s.roots[k].(state := state), account, computer, except);
  }

  lemma {:induction false} CountUpdate(roots: seq<Root>, k: nat, r: Root, account: string, computer: string, except: string)
    requires k < |roots| && r == roots[k].(state := r.state)
    ensures RootCount(roots[k := r], account, computer, except) == RootCount(roots, account, computer, except)
  {
    var front := roots[..|roots| - 1];
    if k < |roots| - 1 {
      CountUpdate(front, k, r, account, computer, except);
      assert roots[k := r][..|roots| - 1] == front[k := r];
    } else {
      assert roots[k := r][..|roots| - 1] == front;
    }
  }

  /** Occupied: not released, and of the account and computer asked about, where one is. */
  predicate Occupies(r: Root, account: string, computer: string, except: string) {
    && !r.released && r.session != except && (account == "" || account == r.account) && (computer == "" || computer == r.computer)
  }

  /** Every occupied root counts once. */
  lemma {:induction false} RootsCount(roots: seq<Root>, r: Root, account: string, computer: string, except: string)
    ensures RootCount([], account, computer, except) == 0
    ensures RootCount(roots + [r], account, computer, except) ==
            RootCount(roots, account, computer, except) + if Occupies(r, account, computer, except) then 1 else 0
  {
    assert (roots + [r])[..|roots|] == roots;
  }

  /** The unreleased root of the session in this epoch. */
  ghost predicate Standing(roots: seq<Root>, k: nat, session: string, epoch: string) {
    k < |roots| && roots[k].session == session && roots[k].epoch == epoch && !roots[k].released
  }

  /** A root is restated exactly while it stands, as something it can be while occupied; nothing else of the ledger changes. */
  lemma {:induction false} RestatedExactly(s: Ledger, session: string, epoch: string, state: HoldState)
    requires Conserved(s)
    ensures var r := SetState(s, session, epoch, state);
            && (r.Ok? <==> state != Abandoned && state != Released && exists k: nat :: Standing(s.roots, k, session, epoch))
            && (r.Err? ==> r.error == if state == Abandoned || state == Released then InvalidInput else WrongGeneration)
            && (r.Ok? ==> forall k: nat :: Standing(s.roots, k, session, epoch) ==>
                  r.value == s.(roots := s.roots[k := s.roots[k].(state := state)]))
  {
    var index := RootIndex(s.roots, session);
    forall k: nat | Standing(s.roots, k, session, epoch)
      ensures index == Some(k)
    {
      assert s.roots[k] in s.roots;
    }
    if Unreleased(s.roots, session, epoch) { assert Standing(s.roots, index.value, session, epoch); }
    hide RootIndex, HoldsStored, UniqueBuckets, Held;
  }

  /** A verified exit frees a standing root and leaves its holds and every window as they are. */
  lemma {:induction false} ExitFrees(s: Ledger, session: string, epoch: string)
    requires Conserved(s)
    ensures var r := Exit(s, session, epoch);
            && (r.Ok? <==> exists k: nat :: Standing(s.roots, k, session, epoch))
            && (r.Ok? ==> forall k: nat :: Standing(s.roots, k, session, epoch) ==>
                  && r.value.windows == s.windows && r.value.roots == s.roots[k := s.roots[k].(state := Released, released := true)]
                  && !Occupies(r.value.roots[k], "", "", "") && r.value.roots[k].holds == s.roots[k].holds)
  {
    var index := RootIndex(s.roots, session);
    forall k: nat | Standing(s.roots, k, session, epoch)
      ensures index == Some(k)
    {
      assert s.roots[k] in s.roots;
    }
    if Unreleased(s.roots, session, epoch) { assert Standing(s.roots, index.value, session, epoch); }
    hide RootIndex, HoldsStored, UniqueBuckets, Held;
  }

  // --------------------------------------------------- the code's own form

  /** The stored ledger with the transactions as methods. */
  class NativeRootStore {
    var windows: Windows
    var roots: seq<Root>
    ghost var others: map<string, int>

    ghost function State(): Ledger
      reads this
    {
      Ledger(windows, roots, others)
    }

    constructor ()
      ensures State() == Ledger(map[], [], map[]) && Conserved(State())
    {
      windows, roots, others := map[], [], map[];
    }

    /** The materializing loop; `ok` is false when a CHECK constraint refuses a row. */
    method MaterializeWindows(ws: seq<Window>, newIds: seq<string>) returns (ok: bool, stored: seq<Window>)
      requires UniqueBuckets(windows) && |newIds| == |ws| && FreshIds(windows, newIds)
      modifies this`windows
      ensures ok <==> MaterializeAll(old(windows), ws, newIds).Some?
      ensures ok ==> MaterializeAll(old(windows), ws, newIds).value == (windows, stored)
      decreases |ws|
    {
      hide UniqueBuckets;
      if ws == [] { return true, []; }
      var w, id := ws[0], ws[0].id;
      if id != "" {
        if w.kind == "fact" && id in windows {
          if !RowOk(Observed(windows[id], w)) { return false, []; }
          windows := windows[id := Observed(windows[id], w)];
        }
      } else if exists x :: x in windows && SameBucket(windows[x], w.accountId, w.kind, w.bucket, w.endsAt) {
        id :| id in windows && SameBucket(windows[id], w.accountId, w.kind, w.bucket, w.endsAt);
        OneConflict(windows, w, id);
        if !RowOk(Observed(windows[id], w)) { return false, []; }
        windows := windows[id := Observed(windows[id], w)];
      } else {
        if !RowOk(NewRow(w)) { return false, []; }
        id := newIds[0];
        windows := windows[id := NewRow(w)];
      }
      assert Materialize(old(windows), w, newIds[0]) == Some((windows, id));
      MaterializeKeeps(old(windows), w, newIds[0]);
      FreshTail(old(windows), windows, newIds);
      ok, stored := MaterializeWindows(ws[1..], newIds[1..]);
      stored := [w.(id := id)] + stored;
    }

    /** The reserving loop over windows in id order; stops at the first one that cannot take its hold. */
    method RaiseWindows(sorted: seq<Window>, asked: map<string, int>) returns (granted: bool, holds: seq<Hold>)
      modifies this`windows
      ensures granted <==> Grant(old(windows), sorted, asked).Some?
      ensures granted ==> windows == Grant(old(windows), sorted, asked).value.windows
                          && holds == Grant(old(windows), sorted, asked).value.holds
    {
      hide WindowEstimate, Grow;
      var estimates := asked;
      holds := [];
      var i := 0;
      assert sorted[0..] == sorted;
      ResumesFromStart(Grant(windows, sorted, asked));
      while i < |sorted|
        invariant 0 <= i <= |sorted|
        invariant Resumed(Grant(old(windows), sorted, asked), Grant(windows, sorted[i..], estimates), holds)
      {
        var w := sorted[i];
        var held := WindowEstimate(w, estimates);
        if !Takes(windows, w.id, held) { return false, []; }
        assert sorted[i..][1..] == sorted[i + 1..];
        windows := Raise(windows, w.id, held);
        ResumesAfter(Grant(windows, sorted[i + 1..], Grow(estimates, w, held)), holds, Hold(w.id, held));
        holds := holds + [Hold(w.id, held)];
        estimates := Grow(estimates, w, held);
        i := i + 1;
      }
      assert sorted[i..] == [] && holds + [] == holds;
      granted := true;
    }

    /** `ReserveNativeRootTx`: all windows or nothing. */
    method ReserveRoot(a: Admission, session: string, epoch: string, b: Budget, newIds: seq<string>)
      returns (r: Result<bool, Denial>)
      requires Conserved(State()) && |newIds| == |b.windows| && FreshIds(windows, newIds)
      modifies this
      ensures r.Ok? <==> Reserve(old(State()), a, session, epoch, b, newIds).Ok?
      ensures r.Ok? ==> State() == Reserve(old(State()), a, session, epoch, b, newIds).value
      ensures r.Err? ==> State() == old(State()) && Err(r.error) == Reserve(old(State()), a, session, epoch, b, newIds)
      ensures Conserved(State())
    {
      hide Conserved, UniqueBuckets, Held, Units, WindowEstimate, Grow, Grant, MaterializeAll, FreshIds, BudgetMatches;
      ghost var was := State();
      ghost var op := ReserveOp(a, session, epoch, b, newIds);
      StepConserves(was, op);
      if a.worker { return Ok(false); }
      if !BudgetMatches(a, session, b) { return Err(IdentityMismatch); }
      var saved := windows;
      BucketsUnique(was);
      var ok, stored := MaterializeWindows(b.windows, newIds);
      if !ok { windows := saved; return Err(ConstraintViolated); }
      var sorted := IdOrder.Sort(stored, WindowId);
      var granted, holds := RaiseWindows(sorted, b.estimates);
      if !granted { windows := saved; return Err(QuotaLimited); }
      if RootIndex(roots, session).Some? { windows := saved; return Err(ConstraintViolated); }
      roots := roots + [Root(session, epoch, a.account, a.computer, Starting, false, holds)];
      others := WithKeys(others, windows);
      r := Ok(true);
    }

    /** `AbandonNativeRootTx`. */
    method AbandonRoot(account: string, session: string, epoch: string) returns (r: Result<bool, Denial>)
      requires Conserved(State())
      modifies this
      ensures r.Ok? <==> Abandon(old(State()), account, session, epoch).Ok?
      ensures r.Ok? ==> State() == Abandon(old(State()), account, session, epoch).value
      ensures r.Err? ==> State() == old(State())
      ensures Conserved(State())
    {
      hide Conserved, Held, UniqueBuckets;
      ghost var was := State();
      StepConserves(was, AbandonOp(account, session, epoch));
      var found := RootIndex(roots, session);
      if found.None? { return Err(OwnershipUnconfirmed); }
      var k := found.value;
      if roots[k].epoch != epoch || roots[k].released || roots[k].account != account { return Err(OwnershipUnconfirmed); }
      var holds := roots[k].holds;
      if |holds| > 4096 { return Err(IdentityMismatch); }
      if exists h :: h in holds && h.units < 1 { return Err(IdentityMismatch); }
      var ids := IdOrder.Sort(HeldIds(holds), StringId);
      var saved := windows;
      var i := 0;
      assert ids[0..] == ids;
      while i < |ids|
        invariant 0 <= i <= |ids|
        invariant State() == was.(windows := windows)
        invariant Lower(was.windows, ids, holds) == Lower(windows, ids[i..], holds)
      {
        assert ids[i..][1..] == ids[i + 1..];
        if ids[i] !in windows { windows := saved; return Err(IdentityMismatch); }
        var row := windows[ids[i]];
        row := row.(reserved := row.reserved - Units(holds, ids[i]));
        if row.reserved < 0 { windows := saved; return Err(ConstraintViolated); }
        windows := windows[ids[i] := row];
        i := i + 1;
      }
      roots := roots[k := roots[k].(released := true, state := Abandoned)];
      r := Ok(true);
    }

    /** `SetNativeRootStateTx`. */
    method SetRootState(session: string, epoch: string, state: HoldState) returns (r: Result<bool, Denial>)
      requires Conserved(State())
      modifies this`roots
      ensures r.Ok? <==> SetState(old(State()), session, epoch, state).Ok?
      ensures r.Ok? ==> State() == SetState(old(State()), session, epoch, state).value
      ensures r.Err? ==> State() == old(State())
      ensures Conserved(State())
    {
      hide Conserved;
      StepConserves(State(), SetStateOp(session, epoch, state));
      if state.Abandoned? || state.Released? { return Err(InvalidInput); }
      var found := RootIndex(roots, session);
      if found.None? || roots[found.value].epoch != epoch || roots[found.value].released { return Err(WrongGeneration); }
      roots := roots[found.value := roots[found.value].(state := state)];
      r := Ok(true);
    }
  }

  /** The reserving loop so far: what is left, with the holds made prepended, is the whole. */
  ghost predicate Resumed(whole: Option<Granted>, rest: Option<Granted>, holds: seq<Hold>) {
    match rest
    case None => whole.None?
    case Some(g) => whole == Some(g.(holds := holds + g.holds))
  }

  lemma {:induction false} ResumesFromStart(whole: Option<Granted>)
    ensures Resumed(whole, whole, [])
  {
    if whole.Some? { assert [] + whole.value.holds == whole.value.holds; }
  }

  lemma {:induction false} ResumesAfter(rest: Option<Granted>, holds: seq<Hold>, h: Hold)
    ensures rest.Some? ==> holds + ([h] + rest.value.holds) == (holds + [h]) + rest.value.holds
  {}

  lemma {:induction false} BucketsUnique(s: Ledger)
    requires Conserved(s)
    ensures UniqueBuckets(s.windows)
  {}

  lemma {:induction false} OneConflict(windows: Windows, w: Window, id: string)
    requires UniqueBuckets(windows) && id in windows && SameBucket(windows[id], w.accountId, w.kind, w.bucket, w.endsAt)
    ensures Conflict(windows, w) == Some(id)
  {}

  lemma {:induction false} FreshTail(before: Windows, after: Windows, newIds: seq<string>)
    requires newIds != [] && FreshIds(before, newIds) && after.Keys <= before.Keys + {newIds[0]}
    ensures FreshIds(after, newIds[1..])
  {
    forall f | f in newIds[1..]
      ensures f !in after && f != ""
    {
      var k :| 0 <= k < |newIds[1..]| && newIds[1..][k] == f;
      assert newIds[k + 1] == f && f in newIds;
    }
  }
}
