/**
 * Projecting a run's own holds out of the windows admission reads
 * (`excludeWindowReservations` in internal/agentaccounts/engine_admission.go).
 * Independent windows are matched by id; fact windows and shared quota windows
 * carry every overlapping hold of their bucket, so they are matched by bucket
 * and interval.
 */
module Exclusion {
  import opened Wrappers
  import opened Pace
  import opened NativeLedger

  datatype ExclusionError = Unreadable

  const MAX_HOLDS: nat := 4096

  /** Windows whose `reserved` sums a bucket over an interval. */
  predicate Pooled(w: Window, sharedQuota: bool) {
    w.kind == "fact" || (sharedQuota && w.readAt.Some? && !Synthetic(w))
  }

  predicate Overlaps(r: Row, w: Window) {
    r.kind.GetOr("") == w.kind && r.bucket == w.bucket && r.startsAt < w.endsAt && w.startsAt < r.endsAt
  }

  predicate Matches(table: Windows, id: string, w: Window, sharedQuota: bool) {
    if Pooled(w, sharedQuota) then id in table && Overlaps(table[id], w) else w.id == id
  }

  /** The units of `holds` that fall on a listed window. */
  function Matched(table: Windows, holds: seq<Hold>, w: Window, sharedQuota: bool): int {
    if holds == [] then 0
    else
      var last := holds[|holds| - 1];
      Matched(table, holds[..|holds| - 1], w, sharedQuota)
      + (if Matches(table, last.window, w, sharedQuota) then last.units else 0)
  }

  lemma {:induction false} MatchedGrows(table: Windows, holds: seq<Hold>, w: Window, sharedQuota: bool, n: nat)
    requires n <= |holds| && forall h <- holds :: h.units >= 1
    ensures 0 <= Matched(table, holds[..n], w, sharedQuota) <= Matched(table, holds, w, sharedQuota)
    decreases |holds|
  {
    if n < |holds| {
      var front := holds[..|holds| - 1];
      assert holds[|holds| - 1] in holds && forall h <- front :: h in holds;
      MatchedGrows(table, front, w, sharedQuota, n);
      assert front[..n] == holds[..n];
    } else {
      assert holds[..n] == holds;
      if holds != [] {
        var front := holds[..|holds| - 1];
        assert holds[|holds| - 1] in holds && forall h <- front :: h in holds;
        MatchedGrows(table, front, w, sharedQuota, 0);
        assert front[..0] == [] && Matched(table, [], w, sharedQuota) == 0;
        MatchedGrows(table, front, w, sharedQuota, |front|);
        assert front[..|front|] == front;
      }
    }
  }

  /**
   * A hold falls on the window it was made on; on a fact, or on a measured
   * window of a shared quota, also from every stored window of its kind and
   * bucket that overlaps it.
   */
  predicate FallsOn(table: Windows, id: string, w: Window, sharedQuota: bool) {
    if w.kind == "fact" || (sharedQuota && w.readAt != None && w.kind != "refresh" && w.kind != "blind") then
      id in table &&
      var r := table[id];
      && (if r.kind == None then w.kind == "" else r.kind == Some(w.kind)) && r.bucket == w.bucket
      && r.startsAt < w.endsAt && r.endsAt > w.startsAt
    else id == w.id
  }

  /** What a run has on a window are the units of its holds that fall on it. */
  lemma {:induction false} MatchedTells(table: Windows, holds: seq<Hold>, h: Hold, w: Window, sharedQuota: bool)
    ensures Matched(table, [], w, sharedQuota) == 0
    ensures Matched(table, holds + [h], w, sharedQuota) ==
            Matched(table, holds, w, sharedQuota) + if FallsOn(table, h.window, w, sharedQuota) then h.units else 0
  {
    assert (holds + [h])[..|holds|] == holds;
  }

  function Less(w: Window, units: int): Window { w.(reserved := w.reserved - units) }

  /** Every window loses exactly the run's units on it. */
  ghost predicate Projected(table: Windows, holds: seq<Hold>, before: seq<Window>, after: seq<Window>, sharedQuota: bool) {
    && |after| == |before|
    && forall i :: 0 <= i < |before| ==> after[i] == Less(before[i], Matched(table, holds, before[i], sharedQuota))
  }

  /** The window holds at least what is to be taken from it. */
  predicate Covers(w: Window, units: int) { units == 0 || units <= w.reserved }

  /** One hold, over all listed windows; the code's inner loop. */
  method ExcludeHold(table: Windows, h: Hold, windows: seq<Window>, sharedQuota: bool)
    returns (r: Result<seq<Window>, ExclusionError>)
    ensures r.Ok? <==> forall w <- windows :: Matches(table, h.window, w, sharedQuota) ==> h.units <= w.reserved
    ensures r.Ok? ==> |r.value| == |windows| && forall i :: 0 <= i < |windows| ==>
              r.value[i] == if Matches(table, h.window, windows[i], sharedQuota) then Less(windows[i], h.units) else windows[i]
  {
    var out := windows;
    for i := 0 to |windows|
      invariant |out| == |windows|
      invariant forall k :: 0 <= k < i ==> Matches(table, h.window, windows[k], sharedQuota) ==> h.units <= windows[k].reserved
      invariant forall k :: 0 <= k < |windows| ==>
                  out[k] == if k < i && Matches(table, h.window, windows[k], sharedQuota) then Less(windows[k], h.units) else windows[k]
    {
      if Matches(table, h.window, out[i], sharedQuota) {
        if h.units > out[i].reserved { return Err(Unreadable); }
        out := out[i := Less(out[i], h.units)];
      }
    }
    r := Ok(out);
  }

  /**
   * `excludeWindowReservations`: succeeds exactly when the holds are few enough
   * and no window holds less than the run has on it.
   */
  method Exclude(table: Windows, runId: string, holds: seq<Hold>, windows: seq<Window>, sharedQuota: bool)
    returns (r: Result<seq<Window>, ExclusionError>)
    requires forall h <- holds :: h.units >= 1
    ensures runId == "" ==> r == Ok(windows)
    ensures runId != "" ==>
              (r.Ok? <==> |holds| <= 4096
                          && forall w <- windows :: Covers(w, Matched(table, holds, w, sharedQuota)))
    ensures runId != "" && r.Ok? ==> Projected(table, holds, windows, r.value, sharedQuota)
  {
    hide Matches, Matched, Projected, Covers;
    if runId == "" { return Ok(windows); }
    var out := windows;
    NothingMatched(table, holds, windows, sharedQuota);
    for n := 0 to |holds|
      invariant n <= MAX_HOLDS
      invariant Projected(table, holds[..n], windows, out, sharedQuota)
      invariant forall w <- windows :: Covers(w, Matched(table, holds[..n], w, sharedQuota))
    {
      if n + 1 > MAX_HOLDS { return Err(Unreadable); }
      var step := ExcludeHold(table, holds[n], out, sharedQuota);
      if step.Err? {
        HoldTooLarge(table, holds, n, windows, out, sharedQuota);
        return Err(Unreadable);
      }
      HoldTaken(table, holds, n, windows, out, step.value, sharedQuota);
      out := step.value;
    }
    assert holds[..|holds|] == holds;
    r := Ok(out);
  }

  lemma {:induction false} NothingMatched(table: Windows, holds: seq<Hold>, windows: seq<Window>, sharedQuota: bool)
    ensures Projected(table, holds[..0], windows, windows, sharedQuota)
    ensures forall w <- windows :: Covers(w, Matched(table, holds[..0], w, sharedQuota))
  {
    assert holds[..0] == [];
  }

  /** One more hold on one window. */
  lemma {:induction false} OneMore(table: Windows, holds: seq<Hold>, n: nat, w: Window, sharedQuota: bool)
    requires n < |holds| && forall h <- holds :: h.units >= 1
    ensures Matched(table, holds[..n + 1], w, sharedQuota) ==
              Matched(table, holds[..n], w, sharedQuota) + (if Matches(table, holds[n].window, w, sharedQuota) then holds[n].units else 0)
    ensures 0 <= Matched(table, holds[..n], w, sharedQuota)
    ensures Matched(table, holds[..n + 1], w, sharedQuota) <= Matched(table, holds, w, sharedQuota)
  {
    assert holds[..n + 1][..n] == holds[..n];
    MatchedGrows(table, holds, w, sharedQuota, n);
    MatchedGrows(table, holds, w, sharedQuota, n + 1);
    hide Matches;
  }

  /** Which windows a hold falls on does not depend on what they have reserved. */
  lemma {:induction false} SameMatches(table: Windows, id: string, w: Window, units: int, sharedQuota: bool)
    ensures Matches(table, id, Less(w, units), sharedQuota) <==> Matches(table, id, w, sharedQuota)
  {}

  lemma {:induction false} ProjectedAt(table: Windows, holds: seq<Hold>, before: seq<Window>, after: seq<Window>, sharedQuota: bool, i: nat)
    requires Projected(table, holds, before, after, sharedQuota) && i < |before|
    ensures |after| == |before| && after[i] == Less(before[i], Matched(table, holds, before[i], sharedQuota))
  {}

  lemma {:induction false} HoldTooLarge(table: Windows, holds: seq<Hold>, n: nat, windows: seq<Window>, out: seq<Window>, sharedQuota: bool)
    requires n < |holds| && (forall h <- holds :: h.units >= 1)
    requires Projected(table, holds[..n], windows, out, sharedQuota)
    requires !forall w <- out :: Matches(table, holds[n].window, w, sharedQuota) ==> holds[n].units <= w.reserved
    ensures !forall w <- windows :: Covers(w, Matched(table, holds, w, sharedQuota))
  {
    var w :| w in out && Matches(table, holds[n].window, w, sharedQuota) && holds[n].units > w.reserved;
    var i :| 0 <= i < |out| && out[i] == w;
    assert |out| == |windows|;
    ProjectedAt(table, holds[..n], windows, out, sharedQuota, i);
    SameMatches(table, holds[n].window, windows[i], Matched(table, holds[..n], windows[i], sharedQuota), sharedQuota);
    OneMore(table, holds, n, windows[i], sharedQuota);
    assert windows[i] in windows && holds[n] in holds;
    hide Matched, Matches, Projected;
  }

  lemma {:induction false} HoldTaken(table: Windows, holds: seq<Hold>, n: nat, windows: seq<Window>, out: seq<Window>,
                                     next: seq<Window>, sharedQuota: bool)
    requires n < |holds| && (forall h <- holds :: h.units >= 1)
    requires Projected(table, holds[..n], windows, out, sharedQuota)
    requires forall w <- windows :: Covers(w, Matched(table, holds[..n], w, sharedQuota))
    requires forall w <- out :: Matches(table, holds[n].window, w, sharedQuota) ==> holds[n].units <= w.reserved
    requires |next| == |out| && forall i :: 0 <= i < |out| ==>
               next[i] == if Matches(table, holds[n].window, out[i], sharedQuota) then Less(out[i], holds[n].units) else out[i]
    ensures Projected(table, holds[..n + 1], windows, next, sharedQuota)
    ensures forall w <- windows :: Covers(w, Matched(table, holds[..n + 1], w, sharedQuota))
  {
    assert |out| == |windows|;
    forall i | 0 <= i < |windows|
      ensures next[i] == Less(windows[i], Matched(table, holds[..n + 1], windows[i], sharedQuota))
      ensures Covers(windows[i], Matched(table, holds[..n + 1], windows[i], sharedQuota))
    {
      ProjectedAt(table, holds[..n], windows, out, sharedQuota, i);
      SameMatches(table, holds[n].window, windows[i], Matched(table, holds[..n], windows[i], sharedQuota), sharedQuota);
      OneMore(table, holds, n, windows[i], sharedQuota);
      assert windows[i] in windows && out[i] in out;
      hide Matched, Matches, Projected;
    }
    hide Matched, Matches, Covers, Less;
  }

  // -------------------------------------------- a conserved ledger's projection

  /** The reservations of a bucket over an interval, as the fact and shared-quota sums take them. */
  function PoolSum(table: Windows, ids: seq<string>, w: Window, amount: map<string, int>): int {
    if ids == [] then 0
    else
      PoolSum(table, ids[1..], w, amount)
      + (if ids[0] in table && ids[0] in amount && Overlaps(table[ids[0]], w) then amount[ids[0]] else 0)
  }

  function Reserved(table: Windows): map<string, int> {
    map id | id in table :: table[id].reserved
  }

  function OwnUnits(table: Windows, holds: seq<Hold>): map<string, int> {
    map id | id in table :: Units(holds, id)
  }

  /** The table's ids, each once. */
  ghost predicate Enumerates(ids: seq<string>, table: Windows) {
    (forall id :: id in ids <==> id in table) && Distinct(ids)
  }

  /** `reserved` is the run's own units plus what all others hold. */
  ghost predicate Balanced(table: Windows, holds: seq<Hold>, others: map<string, int>) {
    && others.Keys == table.Keys
    && (forall id :: id in table ==> table[id].reserved == others[id] + Units(holds, id) && others[id] >= 0)
    && (forall h <- holds :: h.units >= 1 && h.window in table)
  }

  lemma {:induction false} PoolSumSplits(table: Windows, ids: seq<string>, w: Window, holds: seq<Hold>, others: map<string, int>)
    requires Balanced(table, holds, others)
    ensures PoolSum(table, ids, w, Reserved(table)) ==
            PoolSum(table, ids, w, others) + PoolSum(table, ids, w, OwnUnits(table, holds))
    ensures PoolSum(table, ids, w, others) >= 0
  {
    hide Overlaps, Units;
    if ids != [] { PoolSumSplits(table, ids[1..], w, holds, others); }
  }

  lemma {:induction false} UnitsSnoc(holds: seq<Hold>, h: Hold, id: string)
    ensures Units(holds + [h], id) == Units(holds, id) + if h.window == id then h.units else 0
  {
    if holds == [] {
      assert [] + [h] == [h] && [h][1..] == [];
    } else {
      assert (holds + [h])[1..] == holds[1..] + [h];
      UnitsSnoc(holds[1..], h, id);
    }
  }

  lemma {:induction false} PoolSumAdds(table: Windows, ids: seq<string>, w: Window, holds: seq<Hold>, h: Hold)
    requires Distinct(ids)
    ensures PoolSum(table, ids, w, OwnUnits(table, holds + [h])) ==
            PoolSum(table, ids, w, OwnUnits(table, holds))
            + (if h.window in ids && h.window in table && Overlaps(table[h.window], w) then h.units else 0)
  {
    hide Overlaps, Units;
    if ids != [] {
      PoolSumAdds(table, ids[1..], w, holds, h);
      UnitsSnoc(holds, h, ids[0]);
      assert ids == [ids[0]] + ids[1..];
    }
  }

  lemma {:induction false} PoolSumZero(table: Windows, ids: seq<string>, w: Window)
    ensures PoolSum(table, ids, w, OwnUnits(table, [])) == 0
  {
    if ids != [] { PoolSumZero(table, ids[1..], w); }
  }

  /** Summing the run's units row by row is summing its holds one by one. */
  lemma {:induction false} OwnPoolIsMatched(table: Windows, ids: seq<string>, w: Window, holds: seq<Hold>, sharedQuota: bool)
    requires Enumerates(ids, table) && Pooled(w, sharedQuota)
    ensures PoolSum(table, ids, w, OwnUnits(table, holds)) == Matched(table, holds, w, sharedQuota)
  {
    hide Overlaps, Pooled;
    if holds == [] {
      PoolSumZero(table, ids, w);
    } else {
      var front, last := holds[..|holds| - 1], holds[|holds| - 1];
      assert holds == front + [last];
      OwnPoolIsMatched(table, ids, w, front, sharedQuota);
      PoolSumAdds(table, ids, w, front, last);
    }
  }

  lemma {:induction false} OwnUnitsAreMatched(table: Windows, w: Window, holds: seq<Hold>, sharedQuota: bool)
    requires !Pooled(w, sharedQuota)
    ensures Matched(table, holds, w, sharedQuota) == Units(holds, w.id)
  {
    hide Pooled;
    if holds != [] {
      var front, last := holds[..|holds| - 1], holds[|holds| - 1];
      assert holds == front + [last];
      OwnUnitsAreMatched(table, w, front, sharedQuota);
      UnitsSnoc(front, last, w.id);
    }
  }

  /** What admission lists: stored rows, and for pooled windows the bucket's whole reservation. */
  ghost predicate Listed(table: Windows, ids: seq<string>, w: Window, sharedQuota: bool) {
    if Pooled(w, sharedQuota) then w.reserved == PoolSum(table, ids, w, Reserved(table))
    else w.id in table && w.reserved == table[w.id].reserved
  }

  /** What must be left once the run's own holds are projected out. */
  ghost function OthersOn(table: Windows, ids: seq<string>, w: Window, sharedQuota: bool, others: map<string, int>): int
    requires others.Keys == table.Keys && (!Pooled(w, sharedQuota) ==> w.id in table)
  {
    if Pooled(w, sharedQuota) then PoolSum(table, ids, w, others) else others[w.id]
  }

  /**
   * On a conserved ledger the projection leaves exactly the other holders'
   * units on every listed window, so it is never refused for holding too little.
   */
  lemma {:induction false} ProjectionLeavesOthers(table: Windows, ids: seq<string>, w: Window, holds: seq<Hold>,
                                                  others: map<string, int>, sharedQuota: bool)
    requires Enumerates(ids, table) && Balanced(table, holds, others) && Listed(table, ids, w, sharedQuota)
    ensures w.reserved - Matched(table, holds, w, sharedQuota) == OthersOn(table, ids, w, sharedQuota, others)
    ensures Covers(w, Matched(table, holds, w, sharedQuota))
  {
    hide Overlaps, Pooled, Matched, Units;
    if Pooled(w, sharedQuota) {
      PoolSumSplits(table, ids, w, holds, others);
      OwnPoolIsMatched(table, ids, w, holds, sharedQuota);
    } else {
      OwnUnitsAreMatched(table, w, holds, sharedQuota);
    }
  }

  /** The same for the roots of a conserved ledger: every root not abandoned can be projected out. */
  lemma {:induction false} RootHoldsAreBalanced(s: Ledger, k: nat) returns (others: map<string, int>)
    requires Conserved(s) && k < |s.roots| && Counts(s.roots[k])
    ensures Balanced(s.windows, s.roots[k].holds, others)
    ensures forall id :: id in s.windows ==>
              others[id] == s.others[id] + Held(s.roots[..k], id) + Held(s.roots[k + 1..], id)
  {
    EnoughReserved(s, k);
    others := map id | id in s.windows :: s.windows[id].reserved - Units(s.roots[k].holds, id);
    forall id | id in s.windows
      ensures others[id] == s.others[id] + Held(s.roots[..k], id) + Held(s.roots[k + 1..], id)
    {
      assert s.roots == s.roots[..k] + [s.roots[k]] + s.roots[k + 1..];
      HeldConcat(s.roots[..k] + [s.roots[k]], s.roots[k + 1..], id);
      HeldAppend(s.roots[..k], s.roots[k], id);
    }
  }

  lemma {:induction false} HeldConcat(a: seq<Root>, b: seq<Root>, id: string)
    ensures Held(a + b, id) == Held(a, id) + Held(b, id)
    decreases |b|
  {
    hide Units, Counts;
    if b == [] {
      assert a + b == a;
    } else {
      assert (a + b)[..|a + b| - 1] == a + b[..|b| - 1];
      HeldConcat(a, b[..|b| - 1], id);
    }
  }
}
