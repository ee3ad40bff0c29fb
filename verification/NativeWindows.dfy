/**
 * What the rows of the ledger show after windows are materialized and after a
 * root is reserved, told from the windows the budget names
 * (`ReserveNativeRootTx` in internal/agentaccounts/native_root.go).
 */
module NativeWindows {
  import opened Wrappers
  import opened Pace
  import opened NativeLedger
  import IdOrder

  /** The window is written down: one without a row yet, or a stored fact. */
  predicate Refreshes(windows: Windows, w: Window) { w.id == "" || (w.kind == "fact" && w.id in windows) }

  /** The row is of the window's account, kind, bucket and end. */
  predicate OfBucket(r: Row, w: Window) {
    r.account == w.accountId && r.kind == Some(w.kind) && r.bucket == w.bucket && r.endsAt == w.endsAt
  }

  /** The row shows the window's use and when it was read. */
  predicate ShowsUse(r: Row, w: Window) { r.used == w.used && r.readAt == w.readAt }

  /** The row was made for the window. */
  predicate MadeFor(r: Row, w: Window) {
    OfBucket(r, w) && r.startsAt == w.startsAt && r.unit == w.unit && r.allowance == w.allowance
  }

  /** Of the windows written to one row, the last. */
  ghost predicate LastFor(windows: Windows, ws: seq<Window>, listed: seq<Window>, i: nat)
    requires i < |ws| == |listed|
  {
    Refreshes(windows, ws[i]) && forall j :: i < j < |ws| && Refreshes(windows, ws[j]) ==> listed[j].id != listed[i].id
  }

  /** The windows as they are reserved: as the budget names them, with the ids of their rows. */
  predicate Listed(ws: seq<Window>, listed: seq<Window>) {
    && |listed| == |ws|
    && forall i :: 0 <= i < |ws| ==> listed[i] == ws[i].(id := listed[i].id) && (ws[i].id != "" ==> listed[i].id == ws[i].id)
  }

  /** Each row written shows the last window written to it. */
  ghost predicate LastShown(before: Windows, ws: seq<Window>, after: Windows, listed: seq<Window>)
    requires |listed| == |ws|
  {
    forall i :: 0 <= i < |ws| && LastFor(before, ws, listed, i) ==> listed[i].id in after && ShowsUse(after[listed[i].id], ws[i])
  }

  /** A window without an id ends up on a row of its bucket. */
  ghost predicate BucketsFound(ws: seq<Window>, after: Windows, listed: seq<Window>)
    requires |listed| == |ws|
  {
    forall i :: 0 <= i < |ws| && ws[i].id == "" ==> listed[i].id in after && OfBucket(after[listed[i].id], ws[i])
  }

  /** Stored rows change in nothing but their use and its time, and only if a window is written to them. */
  ghost predicate StoredKept(before: Windows, ws: seq<Window>, after: Windows, listed: seq<Window>)
    requires |listed| == |ws|
  {
    && (forall id <- before :: id in after && after[id] == before[id].(used := after[id].used, readAt := after[id].readAt))
    && (forall id <- before :: (forall i :: 0 <= i < |ws| && Refreshes(before, ws[i]) ==> listed[i].id != id) ==>
          id in after && after[id] == before[id])
  }

  /** New rows are made for a window without one. */
  ghost predicate NewMade(before: Windows, ws: seq<Window>, after: Windows, listed: seq<Window>)
    requires |listed| == |ws|
  {
    forall id <- after :: id !in before ==>
      after[id].reserved == 0 && exists i :: 0 <= i < |ws| && ws[i].id == "" && listed[i].id == id && MadeFor(after[id], ws[i])
  }

  /** What materializing leaves in the table. */
  ghost predicate Materialized(before: Windows, ws: seq<Window>, after: Windows, listed: seq<Window>) {
    && Listed(ws, listed) && LastShown(before, ws, after, listed) && BucketsFound(ws, after, listed)
    && StoredKept(before, ws, after, listed) && NewMade(before, ws, after, listed)
  }

  /** No window of the budget names an id the database has yet to hand out. */
  ghost predicate NamesNoFresh(ws: seq<Window>, newIds: seq<string>) { forall w <- ws :: w.id !in newIds }

  /** One window written. */
  ghost predicate Step(windows: Windows, w: Window, next: Windows, id: string, newId: string) {
    && newId !in windows && w.id != newId && (w.id != "" ==> id == w.id)
    && (Refreshes(windows, w) ==> id in next && ShowsUse(next[id], w))
    && (w.id == "" ==>
          id in next && OfBucket(next[id], w) && (id in windows || (id == newId && MadeFor(next[id], w) && next[id].reserved == 0)))
    && (forall x <- windows :: x in next && next[x] == windows[x].(used := next[x].used, readAt := next[x].readAt))
    && (forall x <- windows :: !(Refreshes(windows, w) && x == id) ==> x in next && next[x] == windows[x])
    && (forall x <- next :: x in windows || (x == newId && x == id && w.id == ""))
  }

  lemma {:induction false} OneMaterialized(windows: Windows, w: Window, newId: string)
    requires UniqueBuckets(windows) && newId !in windows && newId != "" && w.id != newId
    requires Materialize(windows, w, newId).Some?
    ensures var (after, id) := Materialize(windows, w, newId).value;
            Step(windows, w, after, id, newId)
  {
    hide UniqueBuckets;
  }

  lemma {:induction false} NoneMaterialized(windows: Windows)
    ensures Materialized(windows, [], windows, [])
  {}

  lemma {:induction false} SameRefreshes(windows: Windows, w: Window, next: Windows, id: string, newId: string, ws: seq<Window>)
    requires Step(windows, w, next, id, newId) && forall v <- ws :: v.id != newId
    ensures forall j :: 0 <= j < |ws| ==> (Refreshes(windows, ws[j]) <==> Refreshes(next, ws[j]))
  {
    hide OfBucket, MadeFor, ShowsUse;
    forall j | 0 <= j < |ws| ensures ws[j].id != newId { assert ws[j] in ws; }
  }

  /** `all` is `first` and then `rest`. */
  ghost predicate Cons(all: seq<Window>, first: Window, rest: seq<Window>) {
    && |all| == |rest| + 1 && all[0] == first
    && forall j :: 0 <= j < |rest| ==> all[j + 1] == rest[j]
  }

  lemma {:induction false} Joined(first: Window, rest: seq<Window>)
    ensures Cons([first] + rest, first, rest)
  {}

  /** What is last with the first window is last without it; the first is last when no other is written to its row. */
  lemma {:induction false} LastCons(windows: Windows, next: Windows, all: seq<Window>, ids: seq<Window>, w: Window, id: string,
                                    ws: seq<Window>, listed: seq<Window>, i: nat)
    requires Cons(all, w, ws) && Cons(ids, w.(id := id), listed) && |listed| == |ws| && i < |all|
    requires forall j :: 0 <= j < |ws| ==> (Refreshes(windows, ws[j]) <==> Refreshes(next, ws[j]))
    requires LastFor(windows, all, ids, i)
    ensures i > 0 ==> LastFor(next, ws, listed, i - 1)
    ensures i == 0 ==> forall j :: 0 <= j < |ws| && Refreshes(next, ws[j]) ==> listed[j].id != id
  {
    hide Refreshes;
    forall j | i - 1 < j < |ws| && Refreshes(next, ws[j])
      ensures listed[j].id != ids[i].id
    {
      assert all[j + 1] == ws[j] && ids[j + 1] == listed[j] && Refreshes(windows, all[j + 1]);
    }
    if i > 0 { assert all[(i - 1) + 1] == ws[i - 1] && ids[(i - 1) + 1] == listed[i - 1]; }
  }

  lemma {:induction false} LastShownCons(windows: Windows, w: Window, next: Windows, id: string, newId: string, ws: seq<Window>,
                                         after: Windows, listed: seq<Window>, all: seq<Window>, ids: seq<Window>)
    requires Step(windows, w, next, id, newId) && (forall v <- ws :: v.id != newId) && |listed| == |ws|
    requires Cons(all, w, ws) && Cons(ids, w.(id := id), listed)
    requires LastShown(next, ws, after, listed) && StoredKept(next, ws, after, listed)
    ensures LastShown(windows, all, after, ids)
  {
    SameRefreshes(windows, w, next, id, newId, ws);
    StepShown(windows, w, next, id, newId);
    hide Step, Refreshes, ShowsUse;
    forall i | 0 <= i < |all| && LastFor(windows, all, ids, i)
      ensures ids[i].id in after && ShowsUse(after[ids[i].id], all[i])
    {
      LastCons(windows, next, all, ids, w, id, ws, listed, i);
      if i == 0 {
        assert Refreshes(windows, w);
        KeptAt(next, ws, after, listed, id);
      } else {
        assert all[(i - 1) + 1] == ws[i - 1] && ids[(i - 1) + 1] == listed[i - 1];
      }
    }
  }

  lemma {:induction false} StepShown(windows: Windows, w: Window, next: Windows, id: string, newId: string)
    requires Step(windows, w, next, id, newId)
    ensures Refreshes(windows, w) ==> id in next && ShowsUse(next[id], w)
  {}

  lemma {:induction false} KeptAt(before: Windows, ws: seq<Window>, after: Windows, listed: seq<Window>, id: string)
    requires |listed| == |ws| && StoredKept(before, ws, after, listed) && id in before
    requires forall j :: 0 <= j < |ws| && Refreshes(before, ws[j]) ==> listed[j].id != id
    ensures id in after && after[id] == before[id]
  {
    hide Refreshes;
  }

  lemma {:induction false} BucketsFoundCons(windows: Windows, w: Window, next: Windows, id: string, newId: string, ws: seq<Window>,
                                            after: Windows, listed: seq<Window>, all: seq<Window>, ids: seq<Window>)
    requires Step(windows, w, next, id, newId) && |listed| == |ws|
    requires Cons(all, w, ws) && Cons(ids, w.(id := id), listed)
    requires BucketsFound(ws, after, listed) && StoredKept(next, ws, after, listed)
    ensures BucketsFound(all, after, ids)
  {
    hide Refreshes;
    forall i | 0 <= i < |all| && all[i].id == ""
      ensures ids[i].id in after && OfBucket(after[ids[i].id], all[i])
    {
      if i > 0 { assert all[(i - 1) + 1] == ws[i - 1] && ids[(i - 1) + 1] == listed[i - 1]; }
    }
  }

  lemma {:induction false} StoredKeptCons(windows: Windows, w: Window, next: Windows, id: string, newId: string, ws: seq<Window>,
                                          after: Windows, listed: seq<Window>, all: seq<Window>, ids: seq<Window>)
    requires Step(windows, w, next, id, newId) && (forall v <- ws :: v.id != newId) && |listed| == |ws|
    requires Cons(all, w, ws) && Cons(ids, w.(id := id), listed)
    requires StoredKept(next, ws, after, listed)
    ensures StoredKept(windows, all, after, ids)
  {
    SameRefreshes(windows, w, next, id, newId, ws);
    hide Refreshes, OfBucket, MadeFor, ShowsUse;
    forall x | x in windows && forall i :: 0 <= i < |all| && Refreshes(windows, all[i]) ==> ids[i].id != x
      ensures x in after && after[x] == windows[x]
    {
      assert next[x] == windows[x];
      forall j | 0 <= j < |ws| && Refreshes(next, ws[j])
        ensures listed[j].id != x
      {
        assert all[j + 1] == ws[j] && ids[j + 1] == listed[j] && Refreshes(windows, all[j + 1]);
      }
      KeptAt(next, ws, after, listed, x);
    }
  }

  lemma {:induction false} NewMadeCons(windows: Windows, w: Window, next: Windows, id: string, newId: string, ws: seq<Window>,
                                       after: Windows, listed: seq<Window>, all: seq<Window>, ids: seq<Window>)
    requires Step(windows, w, next, id, newId) && |listed| == |ws|
    requires Cons(all, w, ws) && Cons(ids, w.(id := id), listed)
    requires NewMade(next, ws, after, listed) && StoredKept(next, ws, after, listed)
    ensures NewMade(windows, all, after, ids)
  {
    hide Refreshes, ShowsUse;
    forall x | x in after && x !in windows
      ensures after[x].reserved == 0 && exists i :: 0 <= i < |all| && all[i].id == "" && ids[i].id == x && MadeFor(after[x], all[i])
    {
      if x in next {
        assert after[x] == next[x].(used := after[x].used, readAt := after[x].readAt);
        assert all[0].id == "" && ids[0].id == x && MadeFor(after[x], all[0]);
      } else {
        var j :| 0 <= j < |ws| && ws[j].id == "" && listed[j].id == x && MadeFor(after[x], ws[j]);
        assert all[j + 1] == ws[j] && ids[j + 1] == listed[j];
      }
    }
  }

  lemma {:induction false} ListedCons(w: Window, id: string, ws: seq<Window>, listed: seq<Window>, all: seq<Window>, ids: seq<Window>)
    requires Listed(ws, listed) && (w.id != "" ==> id == w.id) && Cons(all, w, ws) && Cons(ids, w.(id := id), listed)
    ensures Listed(all, ids)
  {
    forall i | 0 <= i < |all|
      ensures ids[i] == all[i].(id := ids[i].id) && (all[i].id != "" ==> ids[i].id == all[i].id)
    {
      if i > 0 { assert all[(i - 1) + 1] == ws[i - 1] && ids[(i - 1) + 1] == listed[i - 1]; }
    }
  }

  /** One window and then the rest. */
  lemma {:induction false} MaterializedCons(windows: Windows, w: Window, next: Windows, id: string, newId: string, ws: seq<Window>,
                                            after: Windows, listed: seq<Window>)
    requires Step(windows, w, next, id, newId) && (forall v <- ws :: v.id != newId)
    requires Materialized(next, ws, after, listed)
    ensures Materialized(windows, [w] + ws, after, [w.(id := id)] + listed)
  {
    assert w.id != "" ==> id == w.id;
    hide LastShown, BucketsFound, StoredKept, NewMade, Step, Cons, Listed;
    ListedLength(ws, listed);
    var all, ids := [w] + ws, [w.(id := id)] + listed;
    Joined(w, ws);
    Joined(w.(id := id), listed);
    ListedCons(w, id, ws, listed, all, ids);
    LastShownCons(windows, w, next, id, newId, ws, after, listed, all, ids);
    BucketsFoundCons(windows, w, next, id, newId, ws, after, listed, all, ids);
    StoredKeptCons(windows, w, next, id, newId, ws, after, listed, all, ids);
    NewMadeCons(windows, w, next, id, newId, ws, after, listed, all, ids);
  }

  /** Materializing writes each window where it belongs, and nothing else. */
  lemma {:induction false} MaterializeAllShows(windows: Windows, ws: seq<Window>, newIds: seq<string>)
    requires UniqueBuckets(windows) && |newIds| == |ws| && FreshIds(windows, newIds) && NamesNoFresh(ws, newIds)
    requires MaterializeAll(windows, ws, newIds).Some?
    ensures var all := MaterializeAll(windows, ws, newIds).value;
            Materialized(windows, ws, all.0, all.1)
    decreases |ws|
  {
    if ws == [] {
      NoneMaterialized(windows);
    } else {
      hide UniqueBuckets, Materialize, Materialized, Step;
      var (w, newId) := (ws[0], newIds[0]);
      assert ws == [w] + ws[1..] && newId in newIds && w in ws;
      MaterializeKeeps(windows, w, newId);
      OneMaterialized(windows, w, newId);
      var (next, id) := Materialize(windows, w, newId).value;
      FreshRest(windows, next, newIds);
      assert forall v <- ws[1..] :: v in ws;
      assert forall x <- newIds[1..] :: x in newIds;
      MaterializeAllShows(next, ws[1..], newIds[1..]);
      var rest := MaterializeAll(next, ws[1..], newIds[1..]).value;
      MaterializedCons(windows, w, next, id, newId, ws[1..], rest.0, rest.1);
    }
  }

  lemma {:induction false} FreshRest(windows: Windows, next: Windows, newIds: seq<string>)
    requires newIds != [] && FreshIds(windows, newIds) && next.Keys <= windows.Keys + {newIds[0]}
    ensures FreshIds(next, newIds[1..])
  {
    forall f | f in newIds[1..]
      ensures f !in next && f != ""
    {
      var k :| 0 <= k < |newIds[1..]| && newIds[1..][k] == f;
      assert newIds[k + 1] == f && f in newIds;
    }
  }

  // ------------------------------------------------------------ a reservation

  /**
   * What a window is held for: a measured one its learned hold and at least one
   * unit, one set by hand the estimate in its unit, percent at least so.
   */
  predicate HeldFor(w: Window, h: Hold, estimates: map<string, int>) {
    && h.window == w.id
    && (w.readAt.Some? ==> h.units == if w.hold > 1 then w.hold else 1)
    && (w.readAt.None? ==>
          var estimate := if w.unit in estimates then estimates[w.unit] else 0;
          if w.unit == "percent" then h.units >= estimate else h.units == estimate)
  }

  lemma {:induction false} GrownEstimates(w: Window, h: Hold, estimates: map<string, int>, raising: Window, held: int)
    requires HeldFor(w, h, Grow(estimates, raising, held))
    ensures HeldFor(w, h, estimates)
  {}

  /** Every window asked about gets such a hold. */
  lemma {:induction false} EachIsAsked(ws: seq<Window>, estimates: map<string, int>, w: Window)
    requires w in ws
    ensures exists h <- Asked(ws, estimates) :: HeldFor(w, h, estimates)
    decreases |ws|
  {
    var held := WindowEstimate(ws[0], estimates);
    assert HeldFor(ws[0], Hold(ws[0].id, held), estimates);
    hide WindowEstimate, Grow, HeldFor;
    var grown := Grow(estimates, ws[0], held);
    var rest := Asked(ws[1..], grown);
    assert Asked(ws, estimates) == [Hold(ws[0].id, held)] + rest;
    assert ws == [ws[0]] + ws[1..];
    if w == ws[0] {
      assert Hold(ws[0].id, held) in Asked(ws, estimates);
    } else {
      EachIsAsked(ws[1..], grown, w);
      var h :| h in rest && HeldFor(w, h, grown);
      GrownEstimates(w, h, estimates, ws[0], held);
      assert h in Asked(ws, estimates);
    }
  }

  /** The row of one window the budget names: held, within its allowance, and as fresh as the budget. */
  ghost predicate RowShows(before: Windows, ws: seq<Window>, listed: seq<Window>, i: nat, after: Windows, root: Root,
                           estimates: map<string, int>)
    requires i < |ws| == |listed|
  {
    && listed[i].id in after && (exists h <- root.holds :: HeldFor(listed[i], h, estimates))
    && var row := after[listed[i].id];
       && row.used + row.reserved <= row.allowance
       && (ws[i].id == "" ==> OfBucket(row, ws[i]))
       && (LastFor(before, ws, listed, i) ==> ShowsUse(row, ws[i]) && ws[i].used + row.reserved <= row.allowance)
  }

  /** What a reservation leaves in the table. */
  ghost predicate ReservedRows(before: Windows, ws: seq<Window>, listed: seq<Window>, after: Windows, root: Root,
                               estimates: map<string, int>) {
    && Listed(ws, listed)
    && (forall i :: 0 <= i < |ws| ==> RowShows(before, ws, listed, i, after, root, estimates))
    && (forall id <- before :: (forall i :: 0 <= i < |ws| && Refreshes(before, ws[i]) ==> listed[i].id != id) ==>
          id in after && after[id] == before[id].(reserved := after[id].reserved))
    && (forall id <- after :: id !in before ==>
          exists i :: 0 <= i < |ws| && ws[i].id == "" && listed[i].id == id && MadeFor(after[id], ws[i]))
  }

  /**
   * After an accepted reservation each fact or new window the budget names last
   * shows its fresh use, which with all that is reserved on it stays within the
   * allowance; every window named is held; rows the budget does not write keep
   * their use; and a new row is what its window says.
   */
  lemma {:induction false} ReservationShows(s: Ledger, a: Admission, session: string, epoch: string, b: Budget, newIds: seq<string>)
    returns (listed: seq<Window>)
    requires Conserved(s) && |newIds| == |b.windows| && FreshIds(s.windows, newIds) && NamesNoFresh(b.windows, newIds) && !a.worker
    requires Reserve(s, a, session, epoch, b, newIds).Ok?
    ensures var t := Reserve(s, a, session, epoch, b, newIds).value;
            && |t.roots| == |s.roots| + 1
            && var root := t.roots[|s.roots|];
               && root.account == a.account && root.computer == a.computer && root.state == Starting
               && ReservedRows(s.windows, b.windows, listed, t.windows, root, b.estimates)
  {
    hide UniqueBuckets, BudgetMatches, Held, Counts, Units, Materialize, MaterializeAll, Grant, Asked, FreshIds, Materialized, LastFor,
      Affordable, HoldsStored, Shifted, Listed, MadeFor, OfBucket, ShowsUse, Refreshes;
    var t := Reserve(s, a, session, epoch, b, newIds).value;
    var all := MaterializeAll(s.windows, b.windows, newIds).value;
    listed := all.1;
    ReserveConserves(s, a, session, epoch, b, newIds);
    MaterializeAllShows(s.windows, b.windows, newIds);
    var sorted := IdOrder.Sort(listed, WindowId);
    GrantIsAffordable(all.0, sorted, b.estimates);
    var root := t.roots[|s.roots|];
    assert root.holds == Asked(sorted, b.estimates) && t.windows == Shifted(all.0, root.holds, 1);
    EachIsHeld(listed, b.estimates, root);
    ShiftedRows(all.0, root.holds);
    RowsTold(s.windows, b.windows, all.0, listed, t.windows, root, b.estimates);
  }

  lemma {:induction false} EachIsHeld(listed: seq<Window>, estimates: map<string, int>, root: Root)
    requires root.holds == Asked(IdOrder.Sort(listed, WindowId), estimates)
    ensures forall i :: 0 <= i < |listed| ==> exists h <- root.holds :: HeldFor(listed[i], h, estimates)
  {
    var sorted := IdOrder.Sort(listed, WindowId);
    IdOrder.SortPermutes(listed, WindowId);
    hide Asked, HeldFor;
    forall i | 0 <= i < |listed|
      ensures exists h <- root.holds :: HeldFor(listed[i], h, estimates)
    {
      assert listed[i] in multiset(sorted);
      EachIsAsked(sorted, estimates, listed[i]);
    }
  }

  lemma {:induction false} ShiftedRows(windows: Windows, holds: seq<Hold>)
    ensures var after := Shifted(windows, holds, 1);
            after.Keys == windows.Keys && forall id <- after :: after[id] == windows[id].(reserved := after[id].reserved)
  {
    hide Units;
  }

  lemma {:induction false} RowsTold(before: Windows, ws: seq<Window>, between: Windows, listed: seq<Window>, after: Windows, root: Root,
                                     estimates: map<string, int>)
    requires Materialized(before, ws, between, listed)
    requires after.Keys == between.Keys && forall id <- after :: after[id] == between[id].(reserved := after[id].reserved)
    requires forall i :: 0 <= i < |listed| ==> exists h <- root.holds :: HeldFor(listed[i], h, estimates)
    requires forall h <- root.holds :: h.window in after && after[h.window].used + after[h.window].reserved <= after[h.window].allowance
    ensures ReservedRows(before, ws, listed, after, root, estimates)
  {
    ShiftShows(before, ws, between, listed, after);
    hide Materialized, LastFor, Listed, MadeFor, OfBucket, Refreshes, ShowsUse, HeldFor, RowShows;
    ListedLength(ws, listed);
    forall i | 0 <= i < |ws|
      ensures RowShows(before, ws, listed, i, after, root, estimates)
    {
      var w := listed[i];
      var h :| h in root.holds && HeldFor(w, h, estimates);
      HoldNames(w, h, estimates);
      RowTold(before, ws, listed, i, after, root, estimates, h);
    }
  }

  lemma {:induction false} RowTold(before: Windows, ws: seq<Window>, listed: seq<Window>, i: nat, after: Windows, root: Root,
                                    estimates: map<string, int>, h: Hold)
    requires i < |ws| == |listed| && h in root.holds && HeldFor(listed[i], h, estimates)
    requires h.window in after && after[h.window].used + after[h.window].reserved <= after[h.window].allowance
    requires ws[i].id == "" ==> listed[i].id in after && OfBucket(after[listed[i].id], ws[i])
    requires LastFor(before, ws, listed, i) ==> listed[i].id in after && ShowsUse(after[listed[i].id], ws[i])
    ensures RowShows(before, ws, listed, i, after, root, estimates)
  {
    assert h.window == listed[i].id;
    hide LastFor, OfBucket, HeldFor;
  }

  lemma {:induction false} HoldNames(w: Window, h: Hold, estimates: map<string, int>)
    requires HeldFor(w, h, estimates)
    ensures h.window == w.id
  {}

  lemma {:induction false} ListedLength(ws: seq<Window>, listed: seq<Window>)
    requires Listed(ws, listed)
    ensures |listed| == |ws|
  {}

  /** Reserving changes nothing of a row but what is reserved. */
  lemma {:induction false} ShiftShows(before: Windows, ws: seq<Window>, between: Windows, listed: seq<Window>, after: Windows)
    requires Materialized(before, ws, between, listed)
    requires after.Keys == between.Keys && forall id <- after :: after[id] == between[id].(reserved := after[id].reserved)
    ensures Listed(ws, listed) && |listed| == |ws|
    ensures forall i :: 0 <= i < |ws| && LastFor(before, ws, listed, i) ==> listed[i].id in after && ShowsUse(after[listed[i].id], ws[i])
    ensures forall i :: 0 <= i < |ws| && ws[i].id == "" ==> listed[i].id in after && OfBucket(after[listed[i].id], ws[i])
    ensures forall id <- before :: id in after
    ensures forall id <- before :: (forall i :: 0 <= i < |ws| && Refreshes(before, ws[i]) ==> listed[i].id != id) ==>
              id in after && after[id] == before[id].(reserved := after[id].reserved)
    ensures forall id <- after :: id !in before ==>
              exists i :: 0 <= i < |ws| && ws[i].id == "" && listed[i].id == id && MadeFor(after[id], ws[i])
  {
    hide LastFor;
    forall id | id in after && id !in before
      ensures exists i :: 0 <= i < |ws| && ws[i].id == "" && listed[i].id == id && MadeFor(after[id], ws[i])
    {
      var i :| 0 <= i < |ws| && ws[i].id == "" && listed[i].id == id && MadeFor(between[id], ws[i]);
      assert MadeFor(after[id], ws[i]);
    }
  }

  // ------------------------------------------------------- what is refused

  /** The table's checks: nothing negative, an allowance, and only percent windows over it. */
  predicate WithinChecks(r: Row) {
    r.used >= 0 && r.reserved >= 0 && r.allowance >= 1 && (r.unit != "percent" ==> r.used <= r.allowance - r.reserved)
  }

  /** The row a window is written as: a stored fact, or the row of its bucket, refreshed; else a new one. */
  ghost predicate WrittenAs(windows: Windows, w: Window, row: Row) {
    if w.id != "" then
      w.kind == "fact" && w.id in windows && row == windows[w.id].(used := w.used, readAt := w.readAt)
    else if exists id <- windows :: OfBucket(windows[id], w) then
      exists id <- windows :: OfBucket(windows[id], w) && row == windows[id].(used := w.used, readAt := w.readAt)
    else
      row == Row(w.accountId, Some(w.kind), w.bucket, w.startsAt, w.endsAt, w.unit, w.allowance, w.used, 0, w.readAt)
  }

  /** A window is written exactly when its row passes the table's checks; the others are only named. */
  lemma {:induction false} WrittenExactly(windows: Windows, w: Window, newId: string)
    requires UniqueBuckets(windows) && newId !in windows
    ensures Materialize(windows, w, newId).Some? <==> forall row :: WrittenAs(windows, w, row) ==> WithinChecks(row)
    ensures Materialize(windows, w, newId).Some? && Refreshes(windows, w) ==>
              var (after, id) := Materialize(windows, w, newId).value;
              id in after && WrittenAs(windows, w, after[id])
  {
    assert forall id <- windows :: SameBucket(windows[id], w.accountId, w.kind, w.bucket, w.endsAt) <==> OfBucket(windows[id], w);
    var row := if w.id != "" then (if w.id in windows then windows[w.id].(used := w.used, readAt := w.readAt) else NewRow(w))
               else
                 match Conflict(windows, w)
                 case Some(id) => if id in windows then Observed(windows[id], w) else NewRow(w)
                 case None => NewRow(w);
    assert Refreshes(windows, w) ==> WrittenAs(windows, w, row);
    if Conflict(windows, w).Some? {
      var id := Conflict(windows, w).value;
      forall x | x in windows && OfBucket(windows[x], w) ensures x == id { assert windows[x].kind.Some?; }
    }
  }

  /** The budget was made for this very reservation. */
  predicate OwnBudget(a: Admission, session: string, b: Budget) {
    && a.tenant == b.tenant && a.account == b.account && a.session == b.session == session
    && b.windows != [] && |b.windows| <= 4096 && b.now != 0 && |b.estimates| > 0
  }

  /**
   * A worker reserves nothing here. Otherwise a reservation is made exactly on
   * its own budget, when every window can be written, all holds are positive
   * and together within the allowances, and the session has no root yet; and it
   * is refused for the first of these that fails.
   */
  lemma {:induction false} ReservedExactly(s: Ledger, a: Admission, session: string, epoch: string, b: Budget, newIds: seq<string>)
    requires |newIds| == |b.windows|
    ensures var r := Reserve(s, a, session, epoch, b, newIds);
            var all := MaterializeAll(s.windows, b.windows, newIds);
            if a.worker then r == Ok(s)
            else if !OwnBudget(a, session, b) then r == Err(IdentityMismatch)
            else if all.None? then r == Err(ConstraintViolated)
            else if !Affordable(all.value.0, Asked(IdOrder.Sort(all.value.1, WindowId), b.estimates)) then r == Err(QuotaLimited)
            else if exists root <- s.roots :: root.session == session then r == Err(ConstraintViolated)
            else r.Ok? && r.value.roots == s.roots + [r.value.roots[|s.roots|]]
  {
    var all := MaterializeAll(s.windows, b.windows, newIds);
    if all.Some? { GrantIsAffordable(all.value.0, IdOrder.Sort(all.value.1, WindowId), b.estimates); }
    hide MaterializeAll, Grant, Affordable, Asked;
  }
}
