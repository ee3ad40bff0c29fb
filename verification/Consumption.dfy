/**
 * Settling an account's consumption (`learnConsumption` in
 * internal/agentaccounts/learning.go): runs and token-only sessions in time
 * order, split into epochs at the resets their vendor limits name. Times are
 * nanoseconds after the zero time, which stands for no boundary.
 */
module Consumption {
  import opened Wrappers
  import IdOrder

  /** A run, or with an empty id a session outside the manager. */
  datatype Run = Run(id: string, at: int, createdAt: int, tokens: int, cost: int, hit: Option<int>, reset: Option<int>, window: string)

  datatype TokenSample = TokenSample(from: int, at: int, tokens: int)

  datatype Hit = Hit(at: int, tokens: int, cost: int, reset: Option<int>, window: string)

  datatype Learning = Learning(
    plan: string, planSince: int, samples: seq<TokenSample>, hits: seq<Hit>, tokens: int, cost: int, runs: int)

  const MAX_RUNS: nat := 2000

  // -------------------------------------------------- what is looked at, in order

  predicate Earlier(a: Run, b: Run) { a.at < b.at || (a.at == b.at && IdOrder.LessEq(a.id, b.id)) }

  predicate Newer(a: Run, b: Run) { a.at > b.at || (a.at == b.at && IdOrder.LessEq(a.id, b.id)) }

  function Since<T>(rows: seq<T>, keep: T -> bool): seq<T> {
    if rows == [] then [] else (if keep(rows[0]) then [rows[0]] else []) + Since(rows[1..], keep)
  }

  function SampleRun(s: TokenSample): Run { Run("", s.at, s.from, s.tokens, 0, None, None, "") }

  function SampleRuns(samples: seq<TokenSample>): seq<Run> {
    if samples == [] then [] else [SampleRun(samples[0])] + SampleRuns(samples[1..])
  }

  /** The newest managed runs since a time, and the samples inside it, in time order. */
  function Observed(table: seq<Run>, samples: seq<TokenSample>, since: int, now: int): seq<Run> {
    var rows := IdOrder.SortBy(Since(table, (r: Run) => r.createdAt >= since), Newer);
    var managed := if |rows| > MAX_RUNS then rows[..MAX_RUNS] else rows;
    IdOrder.SortBy(managed + SampleRuns(Since(samples, (s: TokenSample) => s.from >= since && s.at <= now)), Earlier)
  }

  /** A plan change starts the horizon over, once something had been learned. */
  function Horizon(l: Learning, plan: string, now: int, horizon: int): (int, int) {
    var planSince := if l.plan != plan && (l.runs > 0 || l.hits != []) then now else l.planSince;
    (planSince, if planSince > now - horizon then planSince else now - horizon)
  }

  // ------------------------------------------------------------- the epochs

  /** The end of the epoch a limit hit is in: the reset it names, or the next instant. */
  function BoundaryOf(r: Run): int
    requires r.hit.Some?
  {
    if r.reset.Some? then r.reset.value else r.hit.value + 1
  }

  /** The boundary set by the last hit among `runs[lo..hi]`; none without a hit. */
  function LastBoundary(runs: seq<Run>, lo: nat, hi: nat): int
    requires hi <= |runs|
    decreases hi
  {
    if hi <= lo then 0
    else if runs[hi - 1].hit.Some? then BoundaryOf(runs[hi - 1])
    else LastBoundary(runs, lo, hi - 1)
  }

  /** Where the epoch of a run starts: at the first run not before the boundary of the epoch so far. */
  function EpochStart(runs: seq<Run>, i: nat): (start: nat)
    requires i < |runs|
    ensures start <= i
  {
    if i == 0 then 0
    else
      var start := EpochStart(runs, i - 1);
      var boundary := LastBoundary(runs, start, i);
      if boundary != 0 && runs[i].at >= boundary then i else start
  }

  function Tokens(runs: seq<Run>, lo: nat, hi: nat): int
    requires hi <= |runs|
    decreases hi
  {
    if hi <= lo then 0 else Tokens(runs, lo, hi - 1) + runs[hi - 1].tokens
  }

  function Cost(runs: seq<Run>, lo: nat, hi: nat): int
    requires hi <= |runs|
    decreases hi
  {
    if hi <= lo then 0 else Cost(runs, lo, hi - 1) + runs[hi - 1].cost
  }

  /** Managed runs only. */
  function Count(runs: seq<Run>, lo: nat, hi: nat): int
    requires hi <= |runs|
    decreases hi
  {
    if hi <= lo then 0 else Count(runs, lo, hi - 1) + (if runs[hi - 1].id != "" then 1 else 0)
  }

  /** A limit hit with the consumption of its epoch up to and with its run. */
  function HitAt(runs: seq<Run>, i: nat, priced: bool): Hit
    requires i < |runs| && runs[i].hit.Some?
  {
    var start := EpochStart(runs, i);
    Hit(runs[i].hit.value, Tokens(runs, start, i + 1), if priced then Cost(runs, start, i + 1) else 0, runs[i].reset, runs[i].window)
  }

  function Hits(runs: seq<Run>, n: nat, priced: bool): seq<Hit>
    requires n <= |runs|
  {
    if n == 0 then []
    else Hits(runs, n - 1, priced) + (if runs[n - 1].hit.Some? then [HitAt(runs, n - 1, priced)] else [])
  }

  /** The start of the epoch still open after all runs. */
  function OpenStart(runs: seq<Run>): (start: nat)
    ensures start <= |runs|
  {
    if runs == [] then 0 else EpochStart(runs, |runs| - 1)
  }

  /** The open epoch ended: its last limit named a reset that has passed. */
  predicate OpenPassed(runs: seq<Run>, now: int) {
    var boundary := LastBoundary(runs, OpenStart(runs), |runs|);
    boundary != 0 && now >= boundary && LastHitNamed(runs, |runs|)
  }

  /** The last limit hit named its reset. */
  predicate LastHitNamed(runs: seq<Run>, n: nat)
    requires n <= |runs|
  {
    n > 0 && if runs[n - 1].hit.Some? then runs[n - 1].reset.Some? else LastHitNamed(runs, n - 1)
  }

  /** The settled state, by segmentation. */
  function Settled(l: Learning, plan: string, now: int, horizon: int, table: seq<Run>): Learning {
    var (planSince, since) := Horizon(l, plan, now, horizon);
    var runs := Observed(table, l.samples, since, now);
    var start := OpenStart(runs);
    var passed := OpenPassed(runs, now);
    Learning(plan, planSince, l.samples, Hits(runs, |runs|, l.samples == []),
             if passed then 0 else Tokens(runs, start, |runs|),
             if passed then 0 else Cost(runs, start, |runs|),
             if passed then 0 else Count(runs, start, |runs|))
  }

  // ---------------------------------------------------------- the code's loop

  /** The accumulating loop: counters are reset at a passed boundary, and a hit records them. */
  method Accumulate(runs: seq<Run>, priced: bool, now: int)
    returns (hits: seq<Hit>, tokens: int, cost: int, count: int)
    ensures hits == Hits(runs, |runs|, priced)
    ensures tokens == (if OpenPassed(runs, now) then 0 else Tokens(runs, OpenStart(runs), |runs|))
    ensures cost == (if OpenPassed(runs, now) then 0 else Cost(runs, OpenStart(runs), |runs|))
    ensures count == (if OpenPassed(runs, now) then 0 else Count(runs, OpenStart(runs), |runs|))
  {
    hits, tokens, cost, count := [], 0, 0, 0;
    var boundary := 0;
    ghost var start: nat := 0;
    for i := 0 to |runs|
      invariant start == (if i == 0 then 0 else EpochStart(runs, i - 1)) && start <= i
      invariant tokens == Tokens(runs, start, i) && cost == Cost(runs, start, i) && count == Count(runs, start, i)
      invariant boundary == LastBoundary(runs, start, i)
      invariant hits == Hits(runs, i, priced)
      invariant hits != [] ==> (hits[|hits| - 1].reset.Some? <==> LastHitNamed(runs, i))
      invariant hits == [] ==> !LastHitNamed(runs, i)
    {
      var r := runs[i];
      if boundary != 0 && r.at >= boundary {
        tokens, cost, count := 0, 0, 0;
        boundary := 0;
        start := i;
      }
      assert start == EpochStart(runs, i);
      tokens := tokens + r.tokens;
      cost := cost + r.cost;
      if r.id != "" { count := count + 1; }
      if r.hit.Some? {
        hits := hits + [Hit(r.hit.value, tokens, if priced then cost else 0, r.reset, r.window)];
        if r.reset.Some? { boundary := r.reset.value; } else { boundary := r.hit.value + 1; }
      }
    }
    if hits != [] && hits[|hits| - 1].reset.Some? && boundary != 0 && now >= boundary {
      tokens, cost, count := 0, 0, 0;
    }
  }

  /** `learnConsumption`. */
  method LearnConsumption(l: Learning, plan: string, now: int, horizon: int, table: seq<Run>) returns (after: Learning)
    ensures after == Settled(l, plan, now, horizon, table)
  {
    hide Observed, Hits, OpenPassed, OpenStart;
    var since := now - horizon;
    after := l;
    if after.plan != plan {
      after := after.(plan := plan);
      if after.runs > 0 || |after.hits| > 0 { after := after.(planSince := now); }
    }
    if after.planSince > since { since := after.planSince; }
    var runs := Observed(table, after.samples, since, now);
    var hits, tokens, cost, count := Accumulate(runs, |after.samples| == 0, now);
    after := after.(hits := hits, tokens := tokens, cost := cost, runs := count);
  }

  // -------------------------------------------------------- what is looked at

  lemma {:induction false} RunsAreOrdered()
    ensures IdOrder.TotalOrder(Earlier) && IdOrder.TotalOrder(Newer)
  {
    forall a: Run, b: Run ensures (Earlier(a, b) || Earlier(b, a)) && (Newer(a, b) || Newer(b, a)) { IdOrder.LessEqTotal(a.id, b.id); }
    forall a: Run, b: Run, c: Run
      ensures Earlier(a, b) && Earlier(b, c) ==> Earlier(a, c)
      ensures Newer(a, b) && Newer(b, c) ==> Newer(a, c)
    {
      if IdOrder.LessEq(a.id, b.id) && IdOrder.LessEq(b.id, c.id) { IdOrder.LessEqChains(a.id, b.id, c.id); }
    }
  }

  lemma {:induction false} SinceCounts<T>(rows: seq<T>, keep: T -> bool, x: T)
    ensures multiset(Since(rows, keep))[x] == if keep(x) then multiset(rows)[x] else 0
  {
    if rows != [] {
      assert rows == [rows[0]] + rows[1..];
      SinceCounts(rows[1..], keep, x);
    }
  }

  lemma {:induction false} SamplesAreRuns(samples: seq<TokenSample>)
    ensures |SampleRuns(samples)| == |samples|
    ensures forall i :: 0 <= i < |samples| ==>
              SampleRuns(samples)[i] == Run("", samples[i].at, samples[i].from, samples[i].tokens, 0, None, None, "")
  {
    if samples != [] { SamplesAreRuns(samples[1..]); }
  }

  /**
   * What a settlement looks at is in time order, then by id, and nothing inside
   * the horizon is lost: every token sample of it, and every managed run of it,
   * but for the oldest when there are more than 2000.
   */
  lemma {:induction false} ObservedTells(table: seq<Run>, samples: seq<TokenSample>, since: int, now: int)
    returns (kept: seq<Run>, dropped: seq<Run>, inside: seq<TokenSample>)
    ensures var runs := Observed(table, samples, since, now);
            && (forall i, j :: 0 <= i < j < |runs| ==>
                  runs[i].at < runs[j].at || (runs[i].at == runs[j].at && IdOrder.LessEq(runs[i].id, runs[j].id)))
            && multiset(runs) == multiset(kept) + multiset(SampleRuns(inside))
            && (forall x :: multiset(inside)[x] == if since <= x.from && x.at <= now then multiset(samples)[x] else 0)
            && (forall x :: multiset(kept)[x] + multiset(dropped)[x] == if since <= x.createdAt then multiset(table)[x] else 0)
            && |kept| <= 2000 && (dropped == [] || |kept| == 2000)
            && (forall k <- kept, o <- dropped :: k.at > o.at || (k.at == o.at && IdOrder.LessEq(k.id, o.id)))
  {
    var recent := (r: Run) => r.createdAt >= since;
    var within := (s: TokenSample) => s.from >= since && s.at <= now;
    var managed := Since(table, recent);
    var rows := IdOrder.SortBy(managed, Newer);
    kept := if |rows| > MAX_RUNS then rows[..MAX_RUNS] else rows;
    dropped := if |rows| > MAX_RUNS then rows[MAX_RUNS..] else [];
    inside := Since(samples, within);
    var all := kept + SampleRuns(inside);
    assert kept + dropped == rows;
    hide IdOrder.SortBy, IdOrder.TotalOrder, Earlier, Newer, Since, SampleRuns;
    ObservedCounts(kept, SampleRuns(inside));
    RunsAreOrdered();
    ObservedOrder(all);
    KeptAreNewest(managed, kept, dropped);
    KeptAreAll(table, recent, kept, dropped);
    InsideAreAll(samples, within);
  }

  lemma {:induction false} ObservedCounts(kept: seq<Run>, tokens: seq<Run>)
    ensures multiset(IdOrder.SortBy(kept + tokens, Earlier)) == multiset(kept) + multiset(tokens)
  {
    IdOrder.SortByPermutes(kept + tokens, Earlier);
  }

  lemma {:induction false} InsideAreAll(samples: seq<TokenSample>, within: TokenSample -> bool)
    ensures forall x :: multiset(Since(samples, within))[x] == if within(x) then multiset(samples)[x] else 0
  {
    forall x ensures multiset(Since(samples, within))[x] == if within(x) then multiset(samples)[x] else 0 { SinceCounts(samples, within, x); }
  }

  lemma {:induction false} KeptAreAll(table: seq<Run>, recent: Run -> bool, kept: seq<Run>, dropped: seq<Run>)
    requires kept + dropped == IdOrder.SortBy(Since(table, recent), Newer)
    ensures forall x :: multiset(kept)[x] + multiset(dropped)[x] == if recent(x) then multiset(table)[x] else 0
  {
    IdOrder.SortByPermutes(Since(table, recent), Newer);
    hide IdOrder.SortBy, Newer, Since;
    forall x
      ensures multiset(kept)[x] + multiset(dropped)[x] == if recent(x) then multiset(table)[x] else 0
    {
      SinceCounts(table, recent, x);
      assert multiset(kept + dropped) == multiset(kept) + multiset(dropped);
    }
  }

  lemma {:induction false} ObservedOrder(all: seq<Run>)
    requires IdOrder.TotalOrder(Earlier)
    ensures var runs := IdOrder.SortBy(all, Earlier);
            forall i, j :: 0 <= i < j < |runs| ==>
              runs[i].at < runs[j].at || (runs[i].at == runs[j].at && IdOrder.LessEq(runs[i].id, runs[j].id))
  {
    IdOrder.SortByOrders(all, Earlier);
    hide IdOrder.LessEq, IdOrder.SortBy, IdOrder.TotalOrder;
  }

  lemma {:induction false} KeptAreNewest(managed: seq<Run>, kept: seq<Run>, dropped: seq<Run>)
    requires IdOrder.TotalOrder(Newer) && kept + dropped == IdOrder.SortBy(managed, Newer)
    ensures forall k <- kept, o <- dropped :: k.at > o.at || (k.at == o.at && IdOrder.LessEq(k.id, o.id))
  {
    hide IdOrder.LessEq;
    IdOrder.SortByOrders(managed, Newer);
    var rows := IdOrder.SortBy(managed, Newer);
    hide IdOrder.SortBy, IdOrder.TotalOrder;
    forall k, o | k in kept && o in dropped
      ensures k.at > o.at || (k.at == o.at && IdOrder.LessEq(k.id, o.id))
    {
      var i :| 0 <= i < |kept| && kept[i] == k;
      var j :| 0 <= j < |dropped| && dropped[j] == o;
      assert rows[i] == k && rows[|kept| + j] == o;
      assert Newer(rows[i], rows[|kept| + j]);
    }
  }

  // ------------------------------------------------------------------- laws

  /** Epochs are blocks of consecutive runs, in order: every run is in exactly one. */
  lemma {:induction false} EpochsAreBlocks(runs: seq<Run>, i: nat, j: nat)
    requires i <= j < |runs|
    ensures EpochStart(runs, i) <= EpochStart(runs, j)
    ensures EpochStart(runs, i) == EpochStart(runs, j) <==> EpochStart(runs, j) <= i
    decreases j
  {
    if i < j {
      EpochsAreBlocks(runs, i, j - 1);
      hide LastBoundary;
    }
  }

  lemma {:induction false} StartsStartThemselves(runs: seq<Run>, i: nat)
    requires i < |runs|
    ensures EpochStart(runs, EpochStart(runs, i)) == EpochStart(runs, i)
  {
    EpochsAreBlocks(runs, EpochStart(runs, i), i);
    hide EpochStart;
  }

  /** The totals of all epochs among the first `n` runs. */
  function EpochTotals(runs: seq<Run>, n: nat): int
    requires n <= |runs|
  {
    if n == 0 then 0 else EpochTotals(runs, EpochStart(runs, n - 1)) + Tokens(runs, EpochStart(runs, n - 1), n)
  }

  lemma {:induction false} TokensSplit(runs: seq<Run>, lo: nat, mid: nat, hi: nat)
    requires lo <= mid <= hi <= |runs|
    ensures Tokens(runs, lo, hi) == Tokens(runs, lo, mid) + Tokens(runs, mid, hi)
    decreases hi
  {
    if mid < hi { TokensSplit(runs, lo, mid, hi - 1); }
  }

  /** Nothing is lost or counted twice: the epochs' totals are the total. */
  lemma {:induction false} EpochsConserveTokens(runs: seq<Run>, n: nat)
    requires n <= |runs|
    ensures EpochTotals(runs, n) == Tokens(runs, 0, n)
  {
    if n > 0 {
      var start := EpochStart(runs, n - 1);
      EpochsConserveTokens(runs, start);
      TokensSplit(runs, 0, start, n);
      hide EpochStart;
    }
  }

  /** Tokens, cost and managed runs of a stretch add up, run by run. */
  lemma {:induction false} TotalsAddUp(runs: seq<Run>, lo: nat, mid: nat, hi: nat)
    requires lo <= mid <= hi <= |runs|
    ensures Tokens(runs, lo, hi) == Tokens(runs, lo, mid) + Tokens(runs, mid, hi)
    ensures Cost(runs, lo, hi) == Cost(runs, lo, mid) + Cost(runs, mid, hi)
    ensures Count(runs, lo, hi) == Count(runs, lo, mid) + Count(runs, mid, hi)
    ensures mid < hi ==>
              && Tokens(runs, mid, mid + 1) == runs[mid].tokens && Cost(runs, mid, mid + 1) == runs[mid].cost
              && Count(runs, mid, mid + 1) == if runs[mid].id == "" then 0 else 1
    decreases hi
  {
    if mid < hi { TotalsAddUp(runs, lo, mid, hi - 1); }
  }

  /** The hit of a run, with the consumption of its epoch up to and with it; no cost where sessions have none. */
  predicate Records(h: Hit, runs: seq<Run>, i: nat, priced: bool)
    requires i < |runs|
  {
    var start := EpochStart(runs, i);
    && runs[i].hit == Some(h.at) && h.reset == runs[i].reset && h.window == runs[i].window
    && h.tokens == Tokens(runs, start, i + 1) && h.cost == if priced then Cost(runs, start, i + 1) else 0
  }

  /** One recorded hit for each run that hit its limit, in order; `of` names the runs. */
  lemma {:induction false} EveryHitIsRecorded(runs: seq<Run>, n: nat, priced: bool) returns (of: seq<nat>)
    requires n <= |runs|
    ensures |of| == |Hits(runs, n, priced)|
    ensures forall k :: 0 <= k < |of| ==> of[k] < n && Records(Hits(runs, n, priced)[k], runs, of[k], priced)
    ensures forall j, k :: 0 <= j < k < |of| ==> of[j] < of[k]
    ensures forall i :: 0 <= i < n && runs[i].hit.Some? ==> i in of
  {
    of := [];
    if n > 0 {
      of := EveryHitIsRecorded(runs, n - 1, priced);
      if runs[n - 1].hit.Some? {
        assert Records(HitAt(runs, n - 1, priced), runs, n - 1, priced);
        of := of + [n - 1];
      }
      hide Records, HitAt;
    }
  }

  /** The last hit of a stretch, with the boundary it sets; none without a hit. */
  lemma {:induction false} LastHit(runs: seq<Run>, lo: nat, hi: nat) returns (h: Option<nat>)
    requires lo <= hi <= |runs|
    ensures h.None? ==> LastBoundary(runs, lo, hi) == 0 && forall k :: lo <= k < hi ==> runs[k].hit.None?
    ensures h.Some? ==>
              && lo <= h.value < hi && runs[h.value].hit.Some? && LastBoundary(runs, lo, hi) == BoundaryOf(runs[h.value])
              && forall k :: h.value < k < hi ==> runs[k].hit.None?
    decreases hi
  {
    if hi == lo { h := None; } else if runs[hi - 1].hit.Some? { h := Some(hi - 1); } else { h := LastHit(runs, lo, hi - 1); }
  }

  predicate Starts(runs: seq<Run>, i: nat)
    requires i < |runs|
  {
    EpochStart(runs, i) == i
  }

  /**
   * The last hit before `i`, with no epoch started since, ended the epoch by `i`:
   * at the reset it names, or right after it.
   */
  predicate EndsEpoch(runs: seq<Run>, h: nat, i: nat)
    requires h < i < |runs|
  {
    && runs[h].hit.Some? && (forall k :: h < k < i ==> runs[k].hit.None? && !Starts(runs, k))
    && match runs[h].reset
       case Some(reset) => reset != 0 && runs[i].at >= reset
       case None => runs[h].hit != Some(-1) && runs[i].at > runs[h].hit.value
  }

  /** No epoch starts between the start of a run's epoch and that run. */
  lemma {:induction false} NoStartInside(runs: seq<Run>, k: nat, i: nat)
    requires k <= i < |runs|
    ensures EpochStart(runs, i) < k ==> !Starts(runs, k)
    ensures Starts(runs, EpochStart(runs, i))
  {
    EpochsAreBlocks(runs, k, i);
    StartsStartThemselves(runs, i);
    hide EpochStart;
  }

  /**
   * A new epoch starts exactly at the runs that are not before the boundary of
   * the last limit hit in the epoch so far.
   */
  lemma {:induction false} EpochEndsAtBoundary(runs: seq<Run>, i: nat)
    requires 0 < i < |runs|
    ensures Starts(runs, i) <==> exists h :: 0 <= h < i && EndsEpoch(runs, h, i)
  {
    var start := EpochStart(runs, i - 1);
    var last := LastHit(runs, start, i);
    assert Starts(runs, i) <==> LastBoundary(runs, start, i) != 0 && runs[i].at >= LastBoundary(runs, start, i) by { hide LastBoundary; }
    NoStartInside(runs, i - 1, i - 1);
    hide EpochStart, LastBoundary, Starts;
    if last.Some? {
      forall k | last.value < k < i ensures !Starts(runs, k) { NoStartInside(runs, k, i - 1); }
      assert runs[i].at >= BoundaryOf(runs[last.value]) && BoundaryOf(runs[last.value]) != 0 ==> EndsEpoch(runs, last.value, i);
    }
    forall h | 0 <= h < i && EndsEpoch(runs, h, i)
      ensures last == Some(h)
    {
      assert Starts(runs, start) && h >= start;
    }
  }

  /** The last run that hit its limit: its epoch is still open, and the reset it names has passed. */
  ghost predicate LastResetPassed(runs: seq<Run>, h: nat, now: int) {
    && h < |runs| && runs[h].hit.Some? && (forall k :: h < k < |runs| ==> runs[k].hit.None? && !Starts(runs, k))
    && runs[h].reset.Some? && runs[h].reset.value != 0 && now >= runs[h].reset.value
  }

  lemma {:induction false} PassedExactly(runs: seq<Run>, now: int)
    ensures OpenPassed(runs, now) <==> exists h :: LastResetPassed(runs, h, now)
  {
    if runs != [] {
      var start := OpenStart(runs);
      var last := LastHit(runs, start, |runs|);
      if last.Some? {
        NamedByLast(runs, last.value, |runs|);
        forall k | last.value < k < |runs| ensures !Starts(runs, k) { NoStartInside(runs, k, |runs| - 1); }
        assert OpenPassed(runs, now) ==> LastResetPassed(runs, last.value, now);
      }
      forall h: nat | LastResetPassed(runs, h, now)
        ensures last == Some(h)
      {
        NoStartInside(runs, start, |runs| - 1);
        hide EpochStart, LastBoundary;
      }
      hide EpochStart, LastBoundary, LastHitNamed;
    }
  }

  lemma {:induction false} NamedByLast(runs: seq<Run>, h: nat, n: nat)
    requires h < n <= |runs| && runs[h].hit.Some? && forall k :: h < k < n ==> runs[k].hit.None?
    ensures LastHitNamed(runs, n) <==> runs[h].reset.Some?
    decreases n
  {
    if h < n - 1 { NamedByLast(runs, h, n - 1); }
  }

  /**
   * A settlement looks at what happened since the horizon or the plan's start,
   * the later of the two; the plan starts over at a change after something was
   * learned. It records the hits, and the counters of the open epoch unless the
   * reset that ended it has passed. `since` and `passed` tell which.
   */
  lemma {:induction false} SettledTells(l: Learning, plan: string, now: int, horizon: int, table: seq<Run>)
    returns (since: int, passed: bool)
    ensures var after := Settled(l, plan, now, horizon, table);
            var runs := Observed(table, l.samples, since, now);
            var start := if runs == [] then 0 else EpochStart(runs, |runs| - 1);
            && after.plan == plan && after.samples == l.samples
            && (l.plan != plan && (l.runs > 0 || l.hits != []) ==> after.planSince == now)
            && (l.plan == plan || (l.runs <= 0 && l.hits == []) ==> after.planSince == l.planSince)
            && since >= now - horizon && since >= after.planSince && (since == now - horizon || since == after.planSince)
            && after.hits == Hits(runs, |runs|, l.samples == [])
            && (passed <==> exists h :: LastResetPassed(runs, h, now))
            && (passed ==> after.tokens == 0 && after.cost == 0 && after.runs == 0)
            && (!passed ==>
                  && after.tokens == Tokens(runs, start, |runs|) && after.cost == Cost(runs, start, |runs|)
                  && after.runs == Count(runs, start, |runs|))
  {
    var (planSince, from) := Horizon(l, plan, now, horizon);
    since := from;
    PassedExactly(Observed(table, l.samples, since, now), now);
    passed := OpenPassed(Observed(table, l.samples, since, now), now);
    hide Observed, Hits, OpenPassed, EpochStart, Tokens, Cost, Count, LastResetPassed;
  }

  /** Settling again on the same inputs changes nothing. */
  lemma {:induction false} SettlingIsIdempotent(l: Learning, plan: string, now: int, horizon: int, table: seq<Run>)
    ensures Settled(Settled(l, plan, now, horizon, table), plan, now, horizon, table) == Settled(l, plan, now, horizon, table)
  {
    hide Observed, Hits, OpenPassed, OpenStart, Tokens, Cost, Count;
  }
}
