/**
 * The allowance ledger of native roots (internal/agentaccounts/native_root.go):
 * windows with `used` and `reserved`, roots with the exact holds they made, and
 * the transactions that reserve, restate, abandon and end a root. Each
 * transaction is atomic and a refused one rolls back.
 */
module NativeLedger {
  import opened Wrappers
  import opened Pace
  import IdOrder

  /** A stored allowance window; `kind` is SQL NULL for windows set by hand. */
  datatype Row = Row(
    account: string, kind: Option<string>, bucket: string, startsAt: int, endsAt: int, unit: string,
    allowance: int, used: int, reserved: int, readAt: Option<int>)

  datatype Hold = Hold(window: string, units: int)

  datatype HoldState =
    | Queued | Starting | Running | Idle | Taken | ExitUnconfirmed
    | Abandoned | Released

  datatype Root = Root(
    session: string, epoch: string, account: string, computer: string,
    state: HoldState, released: bool, holds: seq<Hold>)

  datatype Denial =
    | IdentityMismatch | QuotaLimited | OwnershipUnconfirmed | WrongGeneration
    | InvalidInput | ConstraintViolated

  datatype Admission = Admission(tenant: string, account: string, computer: string, session: string, worker: bool)

  datatype Budget = Budget(
    tenant: string, account: string, session: string,
    windows: seq<Window>, estimates: map<string, int>, now: int)

  type Windows = map<string, Row>

  // ------------------------------------------------------------- estimates

  function EstimateOf(estimates: map<string, int>, unit: string): int {
    if unit in estimates then estimates[unit] else 0
  }

  /** `windowEstimate` (route.go): a measured window holds at least one unit and never invents token or dollar units. */
  function WindowEstimate(w: Window, estimates: map<string, int>): int {
    if w.readAt.Some? then MaxInt(1, w.hold) else EstimateOf(estimates, w.unit)
  }

  /** The percent estimate grows to the largest percent hold so far. */
  function Grow(estimates: map<string, int>, w: Window, held: int): map<string, int> {
    if w.unit == "percent" then estimates["percent" := MaxInt(EstimateOf(estimates, "percent"), held)]
    else estimates
  }

  // ------------------------------------------------------ the reserving loop

  datatype Granted = Granted(windows: Windows, holds: seq<Hold>, estimates: map<string, int>)

  /** The conditional UPDATE of one window. */
  predicate Takes(windows: Windows, id: string, held: int) {
    held >= 1 && id in windows && windows[id].used + windows[id].reserved + held <= windows[id].allowance
  }

  function Raise(windows: Windows, id: string, held: int): Windows
    requires id in windows
  {
    windows[id := windows[id].(reserved := windows[id].reserved + held)]
  }

  /** The reserving loop over windows already in id order. */
  function Grant(windows: Windows, ws: seq<Window>, estimates: map<string, int>): Option<Granted> {
    if ws == [] then Some(Granted(windows, [], estimates))
    else
      var held := WindowEstimate(ws[0], estimates);
      if !Takes(windows, ws[0].id, held) then None
      else
        match Grant(Raise(windows, ws[0].id, held), ws[1..], Grow(estimates, ws[0], held))
        case None => None
        case Some(g) => Some(g.(holds := [Hold(ws[0].id, held)] + g.holds))
  }

  /** The holds the loop asks for, whatever the ledger says. */
  function Asked(ws: seq<Window>, estimates: map<string, int>): seq<Hold> {
    if ws == [] then []
    else
      var held := WindowEstimate(ws[0], estimates);
      [Hold(ws[0].id, held)] + Asked(ws[1..], Grow(estimates, ws[0], held))
  }

  function Units(holds: seq<Hold>, id: string): int {
    if holds == [] then 0
    else (if holds[0].window == id then holds[0].units else 0) + Units(holds[1..], id)
  }

  lemma {:induction false} UnitsPositive(holds: seq<Hold>, id: string)
    requires forall h <- holds :: h.units >= 1
    ensures Units(holds, id) >= 0
    ensures (exists h <- holds :: h.window == id) ==> Units(holds, id) >= 1
  {
    if holds != [] {
      assert holds == [holds[0]] + holds[1..];
      UnitsPositive(holds[1..], id);
    }
  }

  /** The ledger with a list of holds added (or, negated, taken back). */
  function Shifted(windows: Windows, holds: seq<Hold>, sign: int): Windows {
    map id | id in windows :: windows[id].(reserved := windows[id].reserved + sign * Units(holds, id))
  }

  /** Every asked hold is positive, on a stored window, and all holds on a window together fit its allowance. */
  ghost predicate Affordable(windows: Windows, holds: seq<Hold>) {
    && (forall h <- holds :: h.units >= 1 && h.window in windows)
    && (forall h <- holds ::
          windows[h.window].used + windows[h.window].reserved + Units(holds, h.window) <= windows[h.window].allowance)
  }

  /**
   * The loop in one step: it grants exactly the affordable requests, raises
   * each window by exactly its holds, and so does not depend on the order.
   */
  lemma {:induction false} GrantIsAffordable(windows: Windows, ws: seq<Window>, estimates: map<string, int>)
    ensures Grant(windows, ws, estimates).Some? <==> Affordable(windows, Asked(ws, estimates))
    ensures Grant(windows, ws, estimates).Some? ==>
              && Grant(windows, ws, estimates).value.holds == Asked(ws, estimates)
              && Grant(windows, ws, estimates).value.windows == Shifted(windows, Asked(ws, estimates), 1)
    decreases |ws|
  {
    hide WindowEstimate, Grow, Units, Affordable, Shifted;
    var holds := Asked(ws, estimates);
    if ws == [] {
      NothingAsked(windows);
    } else {
      var id, held := ws[0].id, WindowEstimate(ws[0], estimates);
      var rest := Asked(ws[1..], Grow(estimates, ws[0], held));
      assert holds == [Hold(id, held)] + rest && holds[1..] == rest;
      if Takes(windows, id, held) {
        GrantIsAffordable(Raise(windows, id, held), ws[1..], Grow(estimates, ws[0], held));
        AffordableCons(windows, id, held, rest);
        ShiftedCons(windows, id, held, rest);
      } else {
        if Affordable(windows, holds) { AffordableTakes(windows, id, held, rest); }
      }
    }
  }

  lemma {:induction false} NothingAsked(windows: Windows)
    ensures Affordable(windows, []) && Shifted(windows, [], 1) == windows
  {}

  lemma {:induction false} ShiftedCons(windows: Windows, id: string, held: int, rest: seq<Hold>)
    requires id in windows
    ensures Shifted(Raise(windows, id, held), rest, 1) == Shifted(windows, [Hold(id, held)] + rest, 1)
  {
    var holds := [Hold(id, held)] + rest;
    assert holds[1..] == rest;
    forall x | x in windows
      ensures Units(holds, x) == (if x == id then held else 0) + Units(rest, x)
    {}
    hide Units;
  }

  lemma {:induction false} AffordableTakes(windows: Windows, id: string, held: int, rest: seq<Hold>)
    requires Affordable(windows, [Hold(id, held)] + rest)
    ensures Takes(windows, id, held)
  {
    var holds := [Hold(id, held)] + rest;
    assert holds[0] in holds && holds[1..] == rest;
    assert forall h <- rest :: h in holds;
    UnitsPositive(rest, id);
  }

  lemma {:induction false} UnitsCons(id: string, held: int, rest: seq<Hold>)
    ensures forall x :: Units([Hold(id, held)] + rest, x) == (if x == id then held else 0) + Units(rest, x)
  {
    assert ([Hold(id, held)] + rest)[1..] == rest;
  }

  lemma {:induction false} AffordableRest(windows: Windows, id: string, held: int, rest: seq<Hold>)
    requires Takes(windows, id, held) && Affordable(windows, [Hold(id, held)] + rest)
    ensures Affordable(Raise(windows, id, held), rest)
  {
    var holds := [Hold(id, held)] + rest;
    UnitsCons(id, held, rest);
    hide Units;
    forall h | h in rest
      ensures h in holds
    {}
  }

  lemma {:induction false} AffordableWith(windows: Windows, id: string, held: int, rest: seq<Hold>)
    requires Takes(windows, id, held) && Affordable(Raise(windows, id, held), rest)
    ensures Affordable(windows, [Hold(id, held)] + rest)
  {
    var holds := [Hold(id, held)] + rest;
    UnitsCons(id, held, rest);
    hide Units;
    if forall h <- rest :: h.window != id { NoUnits(rest, id); }
    forall h | h in holds
      ensures h.units >= 1 && h.window in windows
      ensures windows[h.window].used + windows[h.window].reserved + Units(holds, h.window) <= windows[h.window].allowance
    {
      assert h == Hold(id, held) || h in rest;
    }
  }

  lemma {:induction false} AffordableCons(windows: Windows, id: string, held: int, rest: seq<Hold>)
    requires Takes(windows, id, held)
    ensures Affordable(windows, [Hold(id, held)] + rest) <==> Affordable(Raise(windows, id, held), rest)
  {
    hide Affordable;
    if Affordable(windows, [Hold(id, held)] + rest) { AffordableRest(windows, id, held, rest); }
    if Affordable(Raise(windows, id, held), rest) { AffordableWith(windows, id, held, rest); }
  }

  lemma {:induction false} NoUnits(holds: seq<Hold>, id: string)
    requires forall h <- holds :: h.window != id
    ensures Units(holds, id) == 0
  {
    if holds != [] {
      assert holds == [holds[0]] + holds[1..];
      NoUnits(holds[1..], id);
    }
  }

  /**
   * What the loop has learned by its end: the percent estimate is the largest of
   * the former one and the holds on percent windows; other units keep theirs.
   */
  lemma {:induction false} GrantedEstimates(windows: Windows, ws: seq<Window>, estimates: map<string, int>)
    requires Grant(windows, ws, estimates).Some?
    ensures var g := Grant(windows, ws, estimates).value;
            var before, after := EstimateOf(estimates, "percent"), EstimateOf(g.estimates, "percent");
            && |g.holds| == |ws|
            && (forall unit :: unit != "percent" ==>
                  (unit in g.estimates <==> unit in estimates) && EstimateOf(g.estimates, unit) == EstimateOf(estimates, unit))
            && after >= before && (forall k :: 0 <= k < |ws| && ws[k].unit == "percent" ==> after >= g.holds[k].units)
            && (after == before || exists k :: 0 <= k < |ws| && ws[k].unit == "percent" && g.holds[k].units == after)
    decreases |ws|
  {
    hide WindowEstimate;
    if ws != [] {
      var held := WindowEstimate(ws[0], estimates);
      var rest := Grant(Raise(windows, ws[0].id, held), ws[1..], Grow(estimates, ws[0], held)).value;
      GrantedEstimates(Raise(windows, ws[0].id, held), ws[1..], Grow(estimates, ws[0], held));
      var g := Grant(windows, ws, estimates).value;
      var after := EstimateOf(g.estimates, "percent");
      assert g.holds == [Hold(ws[0].id, held)] + rest.holds && g.estimates == rest.estimates;
      forall k | 0 < k < |ws| ensures g.holds[k] == rest.holds[k - 1] && ws[k] == ws[1..][k - 1] {}
      forall k | 0 <= k < |ws| && ws[k].unit == "percent"
        ensures after >= g.holds[k].units
      {
        if k > 0 { assert ws[1..][k - 1].unit == "percent"; }
      }
      if after != EstimateOf(Grow(estimates, ws[0], held), "percent") {
        var k :| 0 <= k < |ws| - 1 && ws[1..][k].unit == "percent" && rest.holds[k].units == after;
        assert ws[k + 1].unit == "percent" && g.holds[k + 1].units == after;
      } else if after != EstimateOf(estimates, "percent") {
        assert ws[0].unit == "percent" && g.holds[0].units == after;
      }
    }
  }

  // --------------------------------------------------- provisional windows

  predicate SameBucket(r: Row, account: string, kind: string, bucket: string, endsAt: int) {
    r.kind == Some(kind) && r.account == account && r.bucket == bucket && r.endsAt == endsAt
  }

  /** The unique index on measured windows. */
  ghost predicate UniqueBuckets(windows: Windows) {
    forall a, b :: a in windows && b in windows && windows[a].kind.Some?
                   && SameBucket(windows[b], windows[a].account, windows[a].kind.value, windows[a].bucket, windows[a].endsAt)
                   ==> a == b
  }

  ghost function Conflict(windows: Windows, w: Window): Option<string> {
    if exists id :: id in windows && SameBucket(windows[id], w.accountId, w.kind, w.bucket, w.endsAt) then
      var id :| id in windows && SameBucket(windows[id], w.accountId, w.kind, w.bucket, w.endsAt);
      Some(id)
    else None
  }

  /** The table's CHECK constraints; only percent windows may run over. */
  predicate RowOk(r: Row) {
    r.used >= 0 && r.reserved >= 0 && r.allowance > 0 && (r.unit == "percent" || r.used + r.reserved <= r.allowance)
  }

  function NewRow(w: Window): Row {
    Row(w.accountId, Some(w.kind), w.bucket, w.startsAt, w.endsAt, w.unit, w.allowance, w.used, 0, w.readAt)
  }

  function Observed(r: Row, w: Window): Row {
    r.(used := w.used, readAt := w.readAt)
  }

  /** One turn of the materializing loop: refresh a stored fact, or upsert a window that has no id yet. */
  ghost function Materialize(windows: Windows, w: Window, newId: string): Option<(Windows, string)> {
    if w.id != "" then
      if w.kind == "fact" && w.id in windows then
        if RowOk(Observed(windows[w.id], w)) then Some((windows[w.id := Observed(windows[w.id], w)], w.id)) else None
      else Some((windows, w.id))
    else
      match Conflict(windows, w)
      case Some(id) =>
        if id in windows && RowOk(Observed(windows[id], w)) then Some((windows[id := Observed(windows[id], w)], id)) else None
      case None =>
        if RowOk(NewRow(w)) then Some((windows[newId := NewRow(w)], newId)) else None
  }

  ghost function MaterializeAll(windows: Windows, ws: seq<Window>, newIds: seq<string>): Option<(Windows, seq<Window>)>
    requires |newIds| == |ws|
    decreases |ws|
  {
    if ws == [] then Some((windows, []))
    else
      match Materialize(windows, ws[0], newIds[0])
      case None => None
      case Some(one) =>
        match MaterializeAll(one.0, ws[1..], newIds[1..])
        case None => None
        case Some(rest) => Some((rest.0, [ws[0].(id := one.1)] + rest.1))
  }

  /** Ids the database has not used. */
  ghost predicate FreshIds(windows: Windows, newIds: seq<string>) {
    && (forall f <- newIds :: f !in windows && f != "")
    && (forall i, j :: 0 <= i < j < |newIds| ==> newIds[i] != newIds[j])
  }

  /** Materializing reserves nothing: stored reservations stay, new windows start at zero. */
  ghost predicate SameReservations(before: Windows, after: Windows) {
    && before.Keys <= after.Keys
    && (forall id :: id in before ==>
          after[id] == before[id].(used := after[id].used, readAt := after[id].readAt))
    && (forall id :: id in after && id !in before ==> after[id].reserved == 0)
  }

  lemma {:induction false} MaterializeKeeps(windows: Windows, w: Window, newId: string)
    requires UniqueBuckets(windows) && newId !in windows
    requires Materialize(windows, w, newId).Some?
    ensures var one := Materialize(windows, w, newId).value;
            && UniqueBuckets(one.0) && SameReservations(windows, one.0)
            && one.0.Keys <= windows.Keys + {newId}
  {
    var one := Materialize(windows, w, newId).value;
    if w.id == "" && Conflict(windows, w).None? {
      assert one.0 == windows[newId := NewRow(w)];
    }
  }

  lemma {:induction false} MaterializeAllKeeps(windows: Windows, ws: seq<Window>, newIds: seq<string>)
    requires UniqueBuckets(windows) && |newIds| == |ws| && FreshIds(windows, newIds)
    requires MaterializeAll(windows, ws, newIds).Some?
    ensures var all := MaterializeAll(windows, ws, newIds).value;
            UniqueBuckets(all.0) && SameReservations(windows, all.0)
    decreases |ws|
  {
    hide UniqueBuckets, Materialize;
    if ws != [] {
      MaterializeKeeps(windows, ws[0], newIds[0]);
      var one := Materialize(windows, ws[0], newIds[0]).value;
      forall f | f in newIds[1..]
        ensures f !in one.0 && f != ""
      {
        var k :| 0 <= k < |newIds[1..]| && newIds[1..][k] == f;
        assert newIds[k + 1] == f && f in newIds;
      }
      MaterializeAllKeeps(one.0, ws[1..], newIds[1..]);
    }
  }

  // ----------------------------------------------------------- transactions

  /** The stored ledger; `others` is what all other holders have reserved on each window. */
  datatype Ledger = Ledger(windows: Windows, roots: seq<Root>, others: map<string, int>)

  function RootIndex(roots: seq<Root>, session: string): (k: Option<nat>)
    ensures k.Some? ==> k.value < |roots| && roots[k.value].session == session
    ensures k.None? ==> forall r <- roots :: r.session != session
  {
    if roots == [] then None
    else if roots[|roots| - 1].session == session then Some(|roots| - 1)
    else RootIndex(roots[..|roots| - 1], session)
  }

  /** The identity check before any write. */
  predicate BudgetMatches(a: Admission, session: string, b: Budget) {
    && 1 <= |b.windows| <= 4096 && b.now != 0 && b.estimates != map[]
    && session == a.session && b.tenant == a.tenant && b.account == a.account && b.session == session
  }

  function WindowId(w: Window): string { w.id }

  /** Windows new to the table have no other holder. */
  function WithKeys(others: map<string, int>, windows: Windows): map<string, int> {
    map id | id in windows :: if id in others then others[id] else 0
  }

  /** `ReserveNativeRootTx`. */
  ghost function Reserve(s: Ledger, a: Admission, session: string, epoch: string, b: Budget, newIds: seq<string>): Result<Ledger, Denial>
    requires |newIds| == |b.windows|
  {
    if a.worker then Ok(s)
    else if !BudgetMatches(a, session, b) then Err(IdentityMismatch)
    else
      match MaterializeAll(s.windows, b.windows, newIds)
      case None => Err(ConstraintViolated)
      case Some(all) =>
        match Grant(all.0, IdOrder.Sort(all.1, WindowId), b.estimates)
        case None => Err(QuotaLimited)
        case Some(g) =>
          if RootIndex(s.roots, session).Some? then Err(ConstraintViolated)
          else
            var root := Root(session, epoch, a.account, a.computer, Starting, false, g.holds);
            Ok(Ledger(g.windows, s.roots + [root], WithKeys(s.others, g.windows)))
  }

  function HeldIds(holds: seq<Hold>): seq<string> {
    if holds == [] then []
    else
      var last := holds[|holds| - 1].window;
      var front := HeldIds(holds[..|holds| - 1]);
      if last in front then front else front + [last]
  }

  function StringId(id: string): string { id }

  /** The unwinding loop: each window's units at once, in id order, under the CHECK on `reserved`. */
  function Lower(windows: Windows, ids: seq<string>, holds: seq<Hold>): Result<Windows, Denial> {
    if ids == [] then Ok(windows)
    else if ids[0] !in windows then Err(IdentityMismatch)
    else
      var row := windows[ids[0]].(reserved := windows[ids[0]].reserved - Units(holds, ids[0]));
      if row.reserved < 0 then Err(ConstraintViolated)
      else Lower(windows[ids[0] := row], ids[1..], holds)
  }

  function UnwindHolds(windows: Windows, holds: seq<Hold>): Result<Windows, Denial> {
    if |holds| > 4096 || exists h <- holds :: h.units < 1 then Err(IdentityMismatch)
    else Lower(windows, IdOrder.Sort(HeldIds(holds), StringId), holds)
  }

  predicate Unreleased(roots: seq<Root>, session: string, epoch: string) {
    var k := RootIndex(roots, session);
    k.Some? && roots[k.value].epoch == epoch && !roots[k.value].released
  }

  /** `AbandonNativeRootTx`. */
  function Abandon(s: Ledger, account: string, session: string, epoch: string): Result<Ledger, Denial> {
    if !Unreleased(s.roots, session, epoch) then Err(OwnershipUnconfirmed)
    else
      var k := RootIndex(s.roots, session).value;
      if s.roots[k].account != account then Err(OwnershipUnconfirmed)
      else
        match UnwindHolds(s.windows, s.roots[k].holds)
        case Err(d) => Err(d)
        case Ok(windows) =>
          Ok(s.(windows := windows, roots := s.roots[k := s.roots[k].(released := true, state := Abandoned)]))
  }

  /** `SetNativeRootStateTx`: only occupied states, only unreleased roots. */
  function SetState(s: Ledger, session: string, epoch: string, state: HoldState): Result<Ledger, Denial> {
    if state.Abandoned? || state.Released? then Err(InvalidInput)
    else if !Unreleased(s.roots, session, epoch) then Err(WrongGeneration)
    else
      var k := RootIndex(s.roots, session).value;
      Ok(s.(roots := s.roots[k := s.roots[k].(state := state)]))
  }

  /** A verified process exit releases the occupancy but keeps the holds counted. */
  function Exit(s: Ledger, session: string, epoch: string): Result<Ledger, Denial> {
    if !Unreleased(s.roots, session, epoch) then Err(OwnershipUnconfirmed)
    else
      var k := RootIndex(s.roots, session).value;
      Ok(s.(roots := s.roots[k := s.roots[k].(released := true, state := Released)]))
  }

  /** Another holder takes or returns units of a window. */
  function OtherHolder(s: Ledger, id: string, delta: int): Result<Ledger, Denial> {
    if id !in s.windows || id !in s.others || s.others[id] + delta < 0 then Err(ConstraintViolated)
    else
      var row := s.windows[id].(reserved := s.windows[id].reserved + delta);
      if !RowOk(row) then Err(ConstraintViolated)
      else Ok(s.(windows := s.windows[id := row], others := s.others[id := s.others[id] + delta]))
  }

  /** A new reading or settlement changes what a window has used. */
  function Report(s: Ledger, id: string, used: int): Result<Ledger, Denial> {
    if id !in s.windows || !RowOk(s.windows[id].(used := used)) then Err(ConstraintViolated)
    else Ok(s.(windows := s.windows[id := s.windows[id].(used := used)]))
  }

  /** `NativeRootCountTx`: all unreleased roots, whatever they display. */
  function RootCount(roots: seq<Root>, account: string, computer: string, except: string): nat {
    if roots == [] then 0
    else
      var r := roots[|roots| - 1];
      RootCount(roots[..|roots| - 1], account, computer, except)
      + (if !r.released && r.session != except && (account == "" || r.account == account)
            && (computer == "" || r.computer == computer) then 1 else 0)
  }

  // ------------------------------------------------------------ conservation

  /** A root's holds stay in the ledger until it is abandoned. */
  predicate Counts(r: Root) { !r.state.Abandoned? }

  function Held(roots: seq<Root>, id: string): int {
    if roots == [] then 0
    else
      var r := roots[|roots| - 1];
      Held(roots[..|roots| - 1], id) + (if Counts(r) then Units(r.holds, id) else 0)
  }

  ghost predicate HoldsStored(windows: Windows, holds: seq<Hold>) {
    |holds| <= 4096 && forall h <- holds :: h.units >= 1 && h.window in windows
  }

  /** What every reachable ledger satisfies. */
  ghost predicate Conserved(s: Ledger) {
    && UniqueBuckets(s.windows)
    && s.others.Keys == s.windows.Keys
    && (forall id :: id in s.others ==> s.others[id] >= 0)
    && (forall id :: id in s.windows ==> s.windows[id].reserved == s.others[id] + Held(s.roots, id))
    && (forall r <- s.roots :: HoldsStored(s.windows, r.holds))
    && (forall r <- s.roots :: r.state.Abandoned? ==> r.released)
    && (forall i, j :: 0 <= i < j < |s.roots| ==> s.roots[i].session != s.roots[j].session)
  }

  lemma {:induction false} HeldAppend(roots: seq<Root>, r: Root, id: string)
    ensures Held(roots + [r], id) == Held(roots, id) + if Counts(r) then Units(r.holds, id) else 0
  {
    assert (roots + [r])[..|roots|] == roots;
  }

  lemma {:induction false} HeldUpdate(roots: seq<Root>, k: nat, r: Root, id: string)
    requires k < |roots| && r.holds == roots[k].holds
    ensures Held(roots[k := r], id) ==
            Held(roots, id) + ((if Counts(r) then 1 else 0) - (if Counts(roots[k]) then 1 else 0)) * Units(r.holds, id)
  {
    var front := roots[..|roots| - 1];
    if k < |roots| - 1 {
      HeldUpdate(front, k, r, id);
      assert roots[k := r][..|roots| - 1] == front[k := r];
    } else {
      assert roots[k := r][..|roots| - 1] == front;
    }
  }

  lemma {:induction false} HeldIncludes(roots: seq<Root>, k: nat, id: string)
    requires k < |roots| && forall r <- roots, h <- r.holds :: h.units >= 1
    ensures 0 <= Held(roots, id)
    ensures Counts(roots[k]) ==> Units(roots[k].holds, id) <= Held(roots, id)
    decreases |roots|
  {
    var front, last := roots[..|roots| - 1], roots[|roots| - 1];
    assert last in roots && forall r <- front :: r in roots;
    UnitsPositive(last.holds, id);
    if front != [] {
      HeldIncludes(front, if k < |front| then k else 0, id);
      assert k < |front| ==> front[k] == roots[k];
    } else {
      assert Held(front, id) == 0;
    }
  }

  /** What is reserved on a window: nothing before there is one. */
  function ReservedOn(windows: Windows, id: string): int { if id in windows then windows[id].reserved else 0 }

  /**
   * A reservation keeps conservation, adds exactly its own root, raises every
   * window, the ones it materializes included, by exactly that root's holds,
   * and leaves every window it holds within its allowance.
   */
  lemma {:induction false} ReserveConserves(s: Ledger, a: Admission, session: string, epoch: string, b: Budget, newIds: seq<string>)
    requires Conserved(s) && |newIds| == |b.windows| && FreshIds(s.windows, newIds) && !a.worker
    requires Reserve(s, a, session, epoch, b, newIds).Ok?
    ensures var t := Reserve(s, a, session, epoch, b, newIds).value;
            && Conserved(t)
            && |t.roots| == |s.roots| + 1 && t.roots[..|s.roots|] == s.roots
            && var root := t.roots[|s.roots|];
               && root.session == session && root.epoch == epoch && !root.released && root.holds != []
               && (forall h <- root.holds ::
                     h.window in t.windows && t.windows[h.window].used + t.windows[h.window].reserved <= t.windows[h.window].allowance)
               && s.windows.Keys <= t.windows.Keys
               && (forall id <- t.windows :: t.windows[id].reserved == ReservedOn(s.windows, id) + Units(root.holds, id))
  {
    hide UniqueBuckets, BudgetMatches, Held, Counts, Units, Materialize, MaterializeAll, Grant, Asked, FreshIds;
    var t := Reserve(s, a, session, epoch, b, newIds).value;
    var all := MaterializeAll(s.windows, b.windows, newIds).value;
    var sorted := IdOrder.Sort(all.1, WindowId);
    MaterializeAllKeeps(s.windows, b.windows, newIds);
    GrantIsAffordable(all.0, sorted, b.estimates);
    var holds := Asked(sorted, b.estimates);
    var root := t.roots[|s.roots|];
    assert root.holds == holds && t.windows == Shifted(all.0, holds, 1);
    HoldCount(s, a, session, epoch, b, newIds);
    ReservedRoots(s, t, all.0, root);
    ShiftKeepsBuckets(all.0, holds);
    forall h | h in holds
      ensures h.window in t.windows && t.windows[h.window].used + t.windows[h.window].reserved <= t.windows[h.window].allowance
    {}
  }

  lemma {:induction false} ShiftKeepsBuckets(windows: Windows, holds: seq<Hold>)
    requires UniqueBuckets(windows)
    ensures UniqueBuckets(Shifted(windows, holds, 1)) && UniqueBuckets(Shifted(windows, holds, -1))
  {
    hide Units;
  }

  lemma {:induction false} AskedCount(ws: seq<Window>, estimates: map<string, int>)
    ensures |Asked(ws, estimates)| == |ws|
    decreases |ws|
  {
    hide WindowEstimate, Grow;
    if ws != [] { AskedCount(ws[1..], Grow(estimates, ws[0], WindowEstimate(ws[0], estimates))); }
  }

  lemma {:induction false} MaterializeCount(windows: Windows, ws: seq<Window>, newIds: seq<string>)
    requires |newIds| == |ws| && MaterializeAll(windows, ws, newIds).Some?
    ensures |MaterializeAll(windows, ws, newIds).value.1| == |ws|
    decreases |ws|
  {
    hide Materialize;
    if ws != [] { MaterializeCount(Materialize(windows, ws[0], newIds[0]).value.0, ws[1..], newIds[1..]); }
  }

  lemma {:induction false} HoldCount(s: Ledger, a: Admission, session: string, epoch: string, b: Budget, newIds: seq<string>)
    requires |newIds| == |b.windows| && !a.worker && Reserve(s, a, session, epoch, b, newIds).Ok?
    ensures var all := MaterializeAll(s.windows, b.windows, newIds).value;
            1 <= |Asked(IdOrder.Sort(all.1, WindowId), b.estimates)| <= 4096
  {
    hide Grant;
    var all := MaterializeAll(s.windows, b.windows, newIds).value;
    MaterializeCount(s.windows, b.windows, newIds);
    IdOrder.SortPermutes(all.1, WindowId);
    assert |multiset(IdOrder.Sort(all.1, WindowId))| == |multiset(all.1)|;
    AskedCount(IdOrder.Sort(all.1, WindowId), b.estimates);
  }

  /** The new root list and the shifted windows still balance. */
  lemma {:induction false} ReservedRoots(s: Ledger, t: Ledger, windows: Windows, root: Root)
    requires Conserved(s) && SameReservations(s.windows, windows)
    requires t.roots == s.roots + [root] && root.state.Starting? && !root.released
    requires t.windows == Shifted(windows, root.holds, 1) && t.others == WithKeys(s.others, t.windows)
    requires HoldsStored(windows, root.holds) && RootIndex(s.roots, root.session).None?
    ensures t.others.Keys == t.windows.Keys && (forall id :: id in t.others ==> t.others[id] >= 0)
    ensures forall id :: id in t.windows ==> t.windows[id].reserved == t.others[id] + Held(t.roots, id)
    ensures forall r <- t.roots :: HoldsStored(t.windows, r.holds) && (r.state.Abandoned? ==> r.released)
    ensures forall i, j :: 0 <= i < j < |t.roots| ==> t.roots[i].session != t.roots[j].session
  {
    hide UniqueBuckets, Units, Held, RootIndex;
    forall id | id in t.windows
      ensures t.windows[id].reserved == t.others[id] + Held(t.roots, id)
    {
      HeldAppend(s.roots, root, id);
      if id !in s.windows { NotHeld(s.windows, s.roots, id); }
    }
    forall r | r in t.roots
      ensures HoldsStored(t.windows, r.holds) && (r.state.Abandoned? ==> r.released)
    {
      assert r in s.roots || r == root;
    }
    assert forall r <- s.roots :: r.session != root.session;
  }

  /** No stored root holds a window that is not in the table. */
  lemma {:induction false} NotHeld(windows: Windows, roots: seq<Root>, id: string)
    requires id !in windows && forall r <- roots :: HoldsStored(windows, r.holds)
    ensures Held(roots, id) == 0
  {
    if roots != [] {
      var front, last := roots[..|roots| - 1], roots[|roots| - 1];
      assert last in roots && forall r <- front :: r in roots;
      NotHeld(windows, front, id);
      NoUnits(last.holds, id);
    }
  }

  // ------------------------------------------------------------------ unwind

  ghost predicate Distinct(ids: seq<string>) {
    forall i, j :: 0 <= i < j < |ids| ==> ids[i] != ids[j]
  }

  lemma {:induction false} HeldIdsAreWindows(holds: seq<Hold>)
    ensures Distinct(HeldIds(holds))
    ensures forall id :: id in HeldIds(holds) <==> exists h <- holds :: h.window == id
  {
    if holds != [] {
      var front, last := holds[..|holds| - 1], holds[|holds| - 1];
      assert holds == front + [last];
      HeldIdsAreWindows(front);
      assert forall h :: h in holds <==> h in front || h == last;
    }
  }

  function Lowered(windows: Windows, ids: seq<string>, holds: seq<Hold>): Windows {
    map id | id in windows ::
      if id in ids then windows[id].(reserved := windows[id].reserved - Units(holds, id)) else windows[id]
  }

  lemma {:induction false} LowerShifts(windows: Windows, ids: seq<string>, holds: seq<Hold>)
    requires Distinct(ids)
    requires forall id <- ids :: id in windows && windows[id].reserved >= Units(holds, id)
    ensures Lower(windows, ids, holds) == Ok(Lowered(windows, ids, holds))
    decreases |ids|
  {
    hide Units;
    if ids == [] {
      assert Lowered(windows, ids, holds) == windows;
    } else {
      assert ids == [ids[0]] + ids[1..];
      var next := windows[ids[0] := windows[ids[0]].(reserved := windows[ids[0]].reserved - Units(holds, ids[0]))];
      assert ids[0] in ids;
      LowerShifts(next, ids[1..], holds);
      assert Lowered(next, ids[1..], holds) == Lowered(windows, ids, holds);
    }
  }

  lemma {:induction false} SortedIds(ids: seq<string>)
    requires Distinct(ids)
    ensures Distinct(IdOrder.Sort(ids, StringId))
    ensures forall id :: id in IdOrder.Sort(ids, StringId) <==> id in ids
  {
    var sorted := IdOrder.Sort(ids, StringId);
    IdOrder.SortPermutes(ids, StringId);
    assert forall id :: id in sorted <==> id in multiset(sorted);
    assert forall id :: id in ids <==> id in multiset(ids);
    OnceEach(ids);
    DistinctWhenOnce(sorted);
  }

  lemma {:induction false} DistinctWhenOnce(ids: seq<string>)
    requires forall id :: multiset(ids)[id] <= 1
    ensures Distinct(ids)
  {
    if ids != [] {
      assert ids == [ids[0]] + ids[1..];
      assert multiset(ids)[ids[0]] == 1 + multiset(ids[1..])[ids[0]];
      assert ids[0] !in ids[1..];
      forall id
        ensures multiset(ids[1..])[id] <= 1
      {
        assert multiset([ids[0]] + ids[1..])[id] == multiset([ids[0]])[id] + multiset(ids[1..])[id];
      }
      DistinctWhenOnce(ids[1..]);
    }
  }

  lemma {:induction false} OnceEach(ids: seq<string>)
    requires Distinct(ids)
    ensures forall id :: multiset(ids)[id] <= 1
  {
    if ids != [] {
      OnceEach(ids[1..]);
      assert ids == [ids[0]] + ids[1..];
      assert ids[0] !in ids[1..];
    }
  }

  /** Lowering the held windows is shifting the whole table. */
  lemma {:induction false} LoweredIsShifted(windows: Windows, ids: seq<string>, holds: seq<Hold>)
    requires forall id :: id in ids <==> exists h <- holds :: h.window == id
    ensures Lowered(windows, ids, holds) == Shifted(windows, holds, -1)
  {
    forall id | id in windows && id !in ids
      ensures Units(holds, id) == 0
    {
      NoUnits(holds, id);
    }
    hide Units;
  }

  /** With enough reserved on every window, the unwind takes back exactly the holds. */
  lemma {:induction false} UnwindIsExact(windows: Windows, holds: seq<Hold>)
    requires HoldsStored(windows, holds)
    requires forall id :: id in windows ==> windows[id].reserved >= Units(holds, id)
    ensures UnwindHolds(windows, holds) == Ok(Shifted(windows, holds, -1))
  {
    HeldIdsAreWindows(holds);
    SortedIds(HeldIds(holds));
    var ids := IdOrder.Sort(HeldIds(holds), StringId);
    hide Units, HeldIds, IdOrder.Sort, Lower, Lowered, Shifted;
    LowerShifts(windows, ids, holds);
    LoweredIsShifted(windows, ids, holds);
  }

  lemma {:induction false} LowerExactly(windows: Windows, ids: seq<string>, holds: seq<Hold>)
    requires Distinct(ids)
    ensures Lower(windows, ids, holds).Ok? <==> forall id <- ids :: id in windows && windows[id].reserved >= Units(holds, id)
    decreases |ids|
  {
    hide Units;
    if ids != [] {
      assert ids == [ids[0]] + ids[1..] && ids[0] in ids && ids[0] !in ids[1..];
      if ids[0] in windows && windows[ids[0]].reserved >= Units(holds, ids[0]) {
        var next := windows[ids[0] := windows[ids[0]].(reserved := windows[ids[0]].reserved - Units(holds, ids[0]))];
        LowerExactly(next, ids[1..], holds);
        assert forall id <- ids[1..] :: id in ids && (id in next <==> id in windows) && (id in windows ==> next[id] == windows[id]);
      }
    }
  }

  /**
   * Holds are taken back exactly when there are at most 4096, each of a unit at
   * least and on a stored window with all of them reserved; a list that is too
   * long or holds less than a unit is nobody's.
   */
  lemma {:induction false} UnwoundExactly(windows: Windows, holds: seq<Hold>)
    ensures UnwindHolds(windows, holds).Ok? <==>
            |holds| <= 4096 && forall h <- holds :: h.units >= 1 && h.window in windows && windows[h.window].reserved >= Units(holds, h.window)
    ensures |holds| > 4096 || (exists h <- holds :: h.units <= 0) ==> UnwindHolds(windows, holds) == Err(IdentityMismatch)
  {
    HeldIdsAreWindows(holds);
    SortedIds(HeldIds(holds));
    var ids := IdOrder.Sort(HeldIds(holds), StringId);
    LowerExactly(windows, ids, holds);
    hide Units, HeldIds, IdOrder.Sort, Lower;
  }

  lemma {:induction false} EnoughReserved(s: Ledger, k: nat)
    requires Conserved(s) && k < |s.roots| && Counts(s.roots[k])
    ensures HoldsStored(s.windows, s.roots[k].holds)
    ensures forall id :: id in s.windows ==> s.windows[id].reserved >= Units(s.roots[k].holds, id)
  {
    hide UniqueBuckets, Held, Units;
    assert s.roots[k] in s.roots;
    forall id | id in s.windows
      ensures s.windows[id].reserved >= Units(s.roots[k].holds, id)
    {
      HeldIncludes(s.roots, k, id);
    }
  }

  /** Changing one root's state keeps the table's shape; only abandoning moves units. */
  lemma {:induction false} RestateConserves(s: Ledger, k: nat, r: Root, windows: Windows)
    requires Conserved(s) && k < |s.roots| && Counts(s.roots[k])
    requires r == s.roots[k].(state := r.state, released := r.released) && (r.state.Abandoned? ==> r.released)
    requires windows == if Counts(r) then s.windows else Shifted(s.windows, r.holds, -1)
    ensures Conserved(s.(windows := windows, roots := s.roots[k := r]))
  {
    hide UniqueBuckets, Held, Units, HoldsStored;
    var t := s.(windows := windows, roots := s.roots[k := r]);
    ShiftKeepsBuckets(s.windows, r.holds);
    forall id | id in t.windows
      ensures t.windows[id].reserved == t.others[id] + Held(t.roots, id)
    {
      HeldUpdate(s.roots, k, r, id);
    }
    SameKeysStored(s.windows, windows);
    forall x | x in t.roots
      ensures HoldsStored(t.windows, x.holds) && (x.state.Abandoned? ==> x.released)
    {
      var i :| 0 <= i < |t.roots| && t.roots[i] == x;
      assert s.roots[i] in s.roots && s.roots[k] in s.roots;
    }
  }

  lemma {:induction false} SameKeysStored(before: Windows, after: Windows)
    requires before.Keys == after.Keys
    ensures forall holds :: HoldsStored(before, holds) ==> HoldsStored(after, holds)
  {}

  /**
   * Abandoning an unreleased root of the account always succeeds, takes back
   * exactly what it holds, and can succeed only then.
   */
  lemma {:induction false} AbandonIsExact(s: Ledger, account: string, session: string, epoch: string)
    requires Conserved(s)
    ensures Abandon(s, account, session, epoch).Ok? <==>
            exists r <- s.roots :: r.session == session && r.epoch == epoch && r.account == account && !r.released
    ensures Abandon(s, account, session, epoch).Ok? ==>
              var t := Abandon(s, account, session, epoch).value;
              && Conserved(t)
              && exists k :: 0 <= k < |s.roots| && s.roots[k].session == session
                   && t.windows == Shifted(s.windows, s.roots[k].holds, -1)
                   && t.roots == s.roots[k := s.roots[k].(released := true, state := Abandoned)]
    ensures Abandon(s, account, session, epoch).Ok? ==>
              var t := Abandon(s, account, session, epoch).value;
              Abandon(t, account, session, epoch) == Err(OwnershipUnconfirmed)
    ensures Abandon(s, account, session, epoch).Err? ==>
              Abandon(s, account, session, epoch) == Err(OwnershipUnconfirmed)
  {
    hide UniqueBuckets, Held, Units, UnwindHolds, Shifted, HoldsStored;
    var index := RootIndex(s.roots, session);
    if index.Some? {
      var k := index.value;
      var r := s.roots[k];
      assert r in s.roots;
      forall x | x in s.roots && x.session == session
        ensures x == r
      {
        var i :| 0 <= i < |s.roots| && s.roots[i] == x;
        assert i == k;
      }
      if r.epoch == epoch && !r.released && r.account == account {
        EnoughReserved(s, k);
        UnwindIsExact(s.windows, r.holds);
        var done := r.(released := true, state := Abandoned);
        RestateConserves(s, k, done, Shifted(s.windows, r.holds, -1));
        IndexOfUpdated(s.roots, k, done, session);
      }
    }
  }

  lemma {:induction false} IndexOfUpdated(roots: seq<Root>, k: nat, r: Root, session: string)
    requires RootIndex(roots, session) == Some(k) && k < |roots| && r.session == session
    ensures RootIndex(roots[k := r], session) == Some(k)
  {
    var next := roots[k := r];
    if roots[|roots| - 1].session != session {
      assert next[..|roots| - 1] == roots[..|roots| - 1][k := r];
      IndexOfUpdated(roots[..|roots| - 1], k, r, session);
    }
  }
}
