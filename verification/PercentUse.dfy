/**
 * The vendor percent a period counts (`capacityPercentSQL` in
 * internal/agentaccounts/limits.go): positive increases per reset epoch, added
 * up per series, the largest series counting. Times are nanoseconds.
 */
module PercentUse {
  import opened Wrappers

  const MINUTE: int := 60_000_000_000

  datatype Reading = Reading(
    kind: string, bucket: string, resetsAt: int, readAt: int, minutes: int, used: real, harness: bool, estimate: bool)

  datatype Series = Series(kind: string, bucket: string)

  datatype Sample = Sample(readAt: int, used: real, harness: bool, opensAt: int)

  // ---------------------------------------------------------- one reset epoch

  function SampleOf(r: Reading): Sample { Sample(r.readAt, r.used, r.harness, r.resetsAt - r.minutes * MINUTE) }

  /** `DISTINCT ON`: at one instant the harness wins, then the higher figure. */
  predicate Preferred(a: Sample, b: Sample) { (a.harness && !b.harness) || (a.harness == b.harness && a.used > b.used) }

  /** A sample put in its place; at a taken instant the preferred one stays. */
  function Place(epoch: seq<Sample>, v: Sample): seq<Sample> {
    if epoch == [] || v.readAt < epoch[0].readAt then [v] + epoch
    else if v.readAt == epoch[0].readAt then [if Preferred(v, epoch[0]) then v else epoch[0]] + epoch[1..]
    else [epoch[0]] + Place(epoch[1..], v)
  }

  /** Measured, by now, and of the epoch. */
  predicate Counts(r: Reading, s: Series, resetsAt: int, now: int) {
    !r.estimate && r.readAt <= now && r.kind == s.kind && r.bucket == s.bucket && r.resetsAt == resetsAt
  }

  /** The epoch's samples in reading order, one for each instant. */
  function Epoch(table: seq<Reading>, s: Series, resetsAt: int, now: int): seq<Sample> {
    if table == [] then []
    else
      var before := Epoch(table[..|table| - 1], s, resetsAt, now);
      var r := table[|table| - 1];
      if Counts(r, s, resetsAt, now) then Place(before, SampleOf(r)) else before
  }

  function Positive(x: real): real { if x > 0.0 then x else 0.0 }

  /** What a sample adds after its predecessor; the first counts from zero only if its window opened in the period. */
  function Increase(previous: Option<Sample>, v: Sample, start: int): real {
    if v.readAt < start then 0.0
    else
      match previous
      case Some(p) => Positive(v.used - p.used)
      case None => if v.opensAt >= start then Positive(v.used) else 0.0
  }

  function Previous(epoch: seq<Sample>, i: nat): Option<Sample>
    requires i <= |epoch|
  {
    if i == 0 then None else Some(epoch[i - 1])
  }

  /** What the first `n` samples of an epoch add to the period. */
  function EpochUse(epoch: seq<Sample>, n: nat, start: int): real
    requires n <= |epoch|
  {
    if n == 0 then 0.0 else EpochUse(epoch, n - 1, start) + Increase(Previous(epoch, n - 1), epoch[n - 1], start)
  }

  // -------------------------------------------------------- series and periods

  /** The reset times of a series, each once. */
  function Resets(table: seq<Reading>, s: Series): seq<int> {
    if table == [] then []
    else
      var before := Resets(table[..|table| - 1], s);
      var r := table[|table| - 1];
      if r.kind == s.kind && r.bucket == s.bucket && r.resetsAt !in before then before + [r.resetsAt] else before
  }

  function AllSeries(table: seq<Reading>): seq<Series> {
    if table == [] then []
    else
      var before := AllSeries(table[..|table| - 1]);
      var s := Series(table[|table| - 1].kind, table[|table| - 1].bucket);
      if s in before then before else before + [s]
  }

  function UseOver(table: seq<Reading>, s: Series, resets: seq<int>, start: int, now: int): real {
    if resets == [] then 0.0
    else
      var epoch := Epoch(table, s, resets[|resets| - 1], now);
      UseOver(table, s, resets[..|resets| - 1], start, now) + EpochUse(epoch, |epoch|, start)
  }

  function SeriesUse(table: seq<Reading>, s: Series, start: int, now: int): real {
    UseOver(table, s, Resets(table, s), start, now)
  }

  function Largest(table: seq<Reading>, series: seq<Series>, start: int, now: int): real {
    if series == [] then 0.0
    else
      var rest := Largest(table, series[..|series| - 1], start, now);
      var last := SeriesUse(table, series[|series| - 1], start, now);
      if last > rest then last else rest
  }

  /** `percentUsed`. */
  function PercentUsed(table: seq<Reading>, start: int, now: int): real { Largest(table, AllSeries(table), start, now) }

  // ------------------------------------------------------------- well-formed

  ghost predicate InOrder(epoch: seq<Sample>) {
    forall i, j :: 0 <= i < j < |epoch| ==> epoch[i].readAt < epoch[j].readAt
  }

  /** Where a sample goes: before the first one not read earlier. */
  function Position(epoch: seq<Sample>, at: int): (n: nat)
    ensures n <= |epoch|
  {
    if epoch == [] || at <= epoch[0].readAt then 0 else 1 + Position(epoch[1..], at)
  }

  predicate TakenAt(epoch: seq<Sample>, at: int) { exists i :: 0 <= i < |epoch| && epoch[i].readAt == at }

  lemma {:induction false} PositionMeans(epoch: seq<Sample>, at: int)
    requires InOrder(epoch)
    ensures forall i :: 0 <= i < Position(epoch, at) ==> epoch[i].readAt < at
    ensures forall i :: Position(epoch, at) <= i < |epoch| ==> epoch[i].readAt >= at
  {
    if epoch != [] && at > epoch[0].readAt {
      PositionMeans(epoch[1..], at);
      var n := Position(epoch[1..], at);
      assert forall i :: 1 <= i < |epoch| ==> epoch[i] == epoch[1..][i - 1];
    }
  }

  lemma {:induction false} TailOfEpoch(epoch: seq<Sample>, v: Sample)
    requires epoch != [] && InOrder(epoch) && !TakenAt(epoch, v.readAt)
    ensures InOrder(epoch[1..]) && !TakenAt(epoch[1..], v.readAt)
    ensures v.readAt < epoch[0].readAt ==> Place(epoch, v) == [v] + epoch && Position(epoch, v.readAt) == 0
    ensures v.readAt >= epoch[0].readAt ==>
              Place(epoch, v) == [epoch[0]] + Place(epoch[1..], v) && Position(epoch, v.readAt) == 1 + Position(epoch[1..], v.readAt)
  {
    assert epoch[0].readAt != v.readAt;
    assert forall i :: 0 <= i < |epoch| - 1 ==> epoch[1..][i] == epoch[i + 1];
    hide Preferred;
  }

  lemma {:induction false} SplitBehind(x: Sample, rest: seq<Sample>, v: Sample, n: nat)
    requires n <= |rest|
    ensures [x] + (rest[..n] + [v] + rest[n..]) == ([x] + rest)[..n + 1] + [v] + ([x] + rest)[n + 1..]
  {}

  lemma {:induction false} PlaceInserts(epoch: seq<Sample>, v: Sample)
    requires InOrder(epoch) && !TakenAt(epoch, v.readAt)
    ensures var n := Position(epoch, v.readAt);
            Place(epoch, v) == epoch[..n] + [v] + epoch[n..]
  {
    if epoch == [] {
      assert Place(epoch, v) == [v] + epoch;
    } else {
      hide *;
      TailOfEpoch(epoch, v);
      if v.readAt >= epoch[0].readAt {
        PlaceInserts(epoch[1..], v);
        SplitBehind(epoch[0], epoch[1..], v, Position(epoch[1..], v.readAt));
        assert [epoch[0]] + epoch[1..] == epoch;
      } else {
        assert epoch[..0] + [v] + epoch[0..] == [v] + epoch;
      }
    }
  }

  lemma {:induction false} PlaceKeepsOrder(epoch: seq<Sample>, v: Sample)
    requires InOrder(epoch)
    ensures InOrder(Place(epoch, v))
    ensures forall x <- Place(epoch, v) :: x.readAt == v.readAt || x in epoch
  {
    if epoch != [] && v.readAt > epoch[0].readAt {
      assert forall i :: 0 <= i < |epoch| - 1 ==> epoch[1..][i] == epoch[i + 1];
      PlaceKeepsOrder(epoch[1..], v);
      var rest := Place(epoch[1..], v);
      forall j | 0 <= j < |rest| ensures epoch[0].readAt < rest[j].readAt { assert rest[j] in rest; }
      assert Place(epoch, v) == [epoch[0]] + rest;
    }
  }

  lemma {:induction false} EpochIsOrdered(table: seq<Reading>, s: Series, resetsAt: int, now: int)
    ensures InOrder(Epoch(table, s, resetsAt, now))
  {
    hide InOrder, Place;
    if table != [] {
      EpochIsOrdered(table[..|table| - 1], s, resetsAt, now);
      var r := table[|table| - 1];
      if Counts(r, s, resetsAt, now) { PlaceKeepsOrder(Epoch(table[..|table| - 1], s, resetsAt, now), SampleOf(r)); }
    } else {
      NothingIsOrdered();
    }
  }

  lemma {:induction false} NothingIsOrdered()
    ensures InOrder([])
  {}

  // ---------------------------------------------------- one reading inserted

  /** What a pair of neighbours adds: nothing when there is no second. */
  function Between(p: Option<Sample>, b: Option<Sample>, start: int): real {
    if b.None? then 0.0 else Increase(p, b.value, start)
  }

  function Following(epoch: seq<Sample>, n: nat): Option<Sample>
    requires n <= |epoch|
  {
    if n == |epoch| then None else Some(epoch[n])
  }

  lemma {:induction false} UseOfPrefix(a: seq<Sample>, b: seq<Sample>, n: nat, start: int)
    requires n <= |a| && n <= |b| && a[..n] == b[..n]
    ensures EpochUse(a, n, start) == EpochUse(b, n, start)
  {
    if n > 0 {
      assert a[n - 1] == a[..n][n - 1] && b[n - 1] == b[..n][n - 1];
      assert a[..n - 1] == a[..n][..n - 1] && b[..n - 1] == b[..n][..n - 1];
      assert n > 1 ==> a[n - 2] == a[..n][n - 2] && b[n - 2] == b[..n][n - 2];
      UseOfPrefix(a, b, n - 1, start);
      hide Increase;
    }
  }

  /** An inserted sample changes only the increase of its follower and adds its own. */
  lemma {:induction false} InsertedUse(epoch: seq<Sample>, v: Sample, n: nat, m: nat, start: int)
    requires n <= m <= |epoch|
    ensures var placed := epoch[..n] + [v] + epoch[n..];
            var p := Previous(epoch, n);
            EpochUse(placed, m + 1, start) ==
            EpochUse(epoch, m, start) + Increase(p, v, start)
            + (if m > n then Increase(Some(v), epoch[n], start) - Increase(p, epoch[n], start) else 0.0)
    decreases m
  {
    var placed := epoch[..n] + [v] + epoch[n..];
    if m == n {
      assert placed[..n] == epoch[..n] && placed[n] == v;
      UseOfPrefix(placed, epoch, n, start);
      assert n > 0 ==> placed[n - 1] == epoch[n - 1];
    } else {
      InsertedUse(epoch, v, n, m - 1, start);
      assert placed[m] == epoch[m - 1];
      assert m - 1 > n ==> placed[m - 1] == epoch[m - 2];
      assert m - 1 == n ==> placed[m - 1] == v;
    }
    hide Increase;
  }

  /** Exactly what a reading at a new instant changes in its epoch. */
  lemma {:induction false} PlacedUse(epoch: seq<Sample>, v: Sample, start: int)
    requires InOrder(epoch) && !TakenAt(epoch, v.readAt)
    ensures var n := Position(epoch, v.readAt);
            var placed := Place(epoch, v);
            var p, b := Previous(epoch, n), Following(epoch, n);
            EpochUse(placed, |placed|, start) ==
            EpochUse(epoch, |epoch|, start) + Between(p, Some(v), start) + Between(Some(v), b, start) - Between(p, b, start)
  {
    PlaceInserts(epoch, v);
    InsertedUse(epoch, v, Position(epoch, v.readAt), |epoch|, start);
    hide Increase, EpochUse;
  }

  /**
   * When a reading at a new instant lowers its epoch's use. Inside the period:
   * only as the first of an epoch that its own length does not open in the
   * period while its follower's does. Before the period: when it raises the
   * baseline under the first sample inside.
   */
  predicate InsertionLowers(epoch: seq<Sample>, v: Sample, start: int) {
    var n := Position(epoch, v.readAt);
    var p, b := Previous(epoch, n), Following(epoch, n);
    b.Some? && b.value.readAt >= start &&
    match p
    case Some(a) => v.readAt < start && v.used > a.used && b.value.used > a.used
    case None => (v.readAt < start || v.opensAt < start) && b.value.opensAt >= start && v.used > 0.0 && b.value.used > 0.0
  }

  lemma {:induction false} InsertionLowersExactly(epoch: seq<Sample>, v: Sample, start: int)
    requires InOrder(epoch) && !TakenAt(epoch, v.readAt)
    requires v.used >= 0.0 && forall x <- epoch :: x.used >= 0.0
    ensures var placed := Place(epoch, v);
            EpochUse(placed, |placed|, start) < EpochUse(epoch, |epoch|, start) <==> InsertionLowers(epoch, v, start)
  {
    PlacedUse(epoch, v, start);
    PositionMeans(epoch, v.readAt);
    hide EpochUse, Place, Position;
  }

  // --------------------------------------- a second reading at a taken instant

  function Kept(v: Sample, first: Sample): Sample { if Preferred(v, first) then v else first }

  lemma {:induction false} TailOfTaken(epoch: seq<Sample>, v: Sample)
    requires InOrder(epoch) && TakenAt(epoch, v.readAt)
    ensures epoch != [] && v.readAt >= epoch[0].readAt
    ensures v.readAt == epoch[0].readAt ==> Place(epoch, v) == [Kept(v, epoch[0])] + epoch[1..] && Position(epoch, v.readAt) == 0
    ensures v.readAt > epoch[0].readAt ==>
              && InOrder(epoch[1..]) && TakenAt(epoch[1..], v.readAt)
              && Place(epoch, v) == [epoch[0]] + Place(epoch[1..], v) && Position(epoch, v.readAt) == 1 + Position(epoch[1..], v.readAt)
  {
    hide Preferred;
    var i :| 0 <= i < |epoch| && epoch[i].readAt == v.readAt;
    if i > 0 { assert epoch[1..][i - 1].readAt == v.readAt; }
  }

  /** At a taken instant the preferred sample stays, the other is forgotten. */
  lemma {:induction false} PlaceReplaces(epoch: seq<Sample>, v: Sample)
    requires InOrder(epoch) && TakenAt(epoch, v.readAt)
    ensures var n := Position(epoch, v.readAt);
            && n < |epoch| && epoch[n].readAt == v.readAt
            && Place(epoch, v) == epoch[n := Kept(v, epoch[n])]
  {
    hide *;
    TailOfTaken(epoch, v);
    if v.readAt > epoch[0].readAt {
      PlaceReplaces(epoch[1..], v);
      assert epoch == [epoch[0]] + epoch[1..];
    }
  }

  /** A replaced sample changes its own increase and its follower's. */
  lemma {:induction false} ReplacedUse(epoch: seq<Sample>, v: Sample, n: nat, m: nat, start: int)
    requires n < m <= |epoch|
    ensures var p, next := Previous(epoch, n), epoch[n := v];
            EpochUse(next, m, start) ==
            EpochUse(epoch, m, start) + Increase(p, v, start) - Increase(p, epoch[n], start)
            + (if m > n + 1 then Increase(Some(v), epoch[n + 1], start) - Increase(Some(epoch[n]), epoch[n + 1], start) else 0.0)
    decreases m
  {
    var next := epoch[n := v];
    if m == n + 1 {
      assert next[..n] == epoch[..n];
      UseOfPrefix(next, epoch, n, start);
    } else {
      ReplacedUse(epoch, v, n, m - 1, start);
    }
    hide Increase;
  }

  /** How far a figure lies outside its neighbours: below the lower one or above the higher one. */
  function Gap(x: real, a: real, b: Option<Sample>): real {
    match b
    case None => Positive(x - a)
    case Some(c) => if a <= c.used then Positive(a - x) + Positive(x - c.used) else Positive(c.used - x) + Positive(x - a)
  }

  /**
   * When a second reading at a taken instant lowers its epoch's use: it must be
   * preferred to the first. Before the period it raises the baseline. Inside it
   * lies nearer to its neighbours than the first did, zero being the lower
   * neighbour of the first sample of an epoch that opened in the period; or
   * the two disagree on that opening.
   */
  predicate ReplacementLowers(epoch: seq<Sample>, v: Sample, start: int) {
    var n := Position(epoch, v.readAt);
    n < |epoch| &&
    var first, p, b := epoch[n], Previous(epoch, n), Following(epoch, n + 1);
    var raisesBaseline := b.Some? && b.value.readAt >= start && v.used > first.used && b.value.used > first.used;
    Preferred(v, first) &&
    if v.readAt < start then raisesBaseline
    else if p.Some? then Gap(v.used, p.value.used, b) < Gap(first.used, p.value.used, b)
    else if v.opensAt >= start then first.opensAt >= start && Gap(v.used, 0.0, b) < Gap(first.used, 0.0, b)
    else if first.opensAt < start then raisesBaseline
    else
      match b
      case None => first.used > 0.0
      case Some(c) => first.used > Positive(c.used - v.used) || (c.used > 0.0 && v.used > 0.0)
  }

  lemma {:induction false} NeighboursOf(epoch: seq<Sample>, n: nat)
    requires n < |epoch| && InOrder(epoch) && forall x <- epoch :: x.used >= 0.0
    ensures epoch[n].used >= 0.0 && (n > 0 ==> epoch[n - 1].used >= 0.0)
    ensures n + 1 < |epoch| ==> epoch[n + 1].used >= 0.0 && epoch[n + 1].readAt > epoch[n].readAt
  {
    assert epoch[n] in epoch && (n > 0 ==> epoch[n - 1] in epoch) && (n + 1 < |epoch| ==> epoch[n + 1] in epoch);
  }

  lemma {:induction false} ReplacementLowersExactly(epoch: seq<Sample>, v: Sample, start: int)
    requires InOrder(epoch) && TakenAt(epoch, v.readAt)
    requires v.used >= 0.0 && forall x <- epoch :: x.used >= 0.0
    ensures var placed := Place(epoch, v);
            EpochUse(placed, |placed|, start) < EpochUse(epoch, |epoch|, start) <==> ReplacementLowers(epoch, v, start)
  {
    hide EpochUse, Place, Position, Preferred, InOrder, TakenAt;
    PlaceReplaces(epoch, v);
    var n := Position(epoch, v.readAt);
    if Preferred(v, epoch[n]) {
      ReplacedUse(epoch, v, n, |epoch|, start);
      NeighboursOf(epoch, n);
    } else {
      assert epoch[n := epoch[n]] == epoch;
    }
  }

  /** Exactly which readings lower the use of their epoch. */
  predicate Lowers(epoch: seq<Sample>, v: Sample, start: int) {
    if TakenAt(epoch, v.readAt) then ReplacementLowers(epoch, v, start) else InsertionLowers(epoch, v, start)
  }

  lemma {:induction false} LowersExactly(epoch: seq<Sample>, v: Sample, start: int)
    requires InOrder(epoch)
    requires v.used >= 0.0 && forall x <- epoch :: x.used >= 0.0
    ensures var placed := Place(epoch, v);
            EpochUse(placed, |placed|, start) < EpochUse(epoch, |epoch|, start) <==> Lowers(epoch, v, start)
  {
    hide EpochUse, Place, InsertionLowers, ReplacementLowers;
    if TakenAt(epoch, v.readAt) { ReplacementLowersExactly(epoch, v, start); } else { InsertionLowersExactly(epoch, v, start); }
  }

  // ------------------------------------------------------ what an epoch holds

  /** The sample shows the reading, whose window opened its length before the reset. */
  predicate IsOf(x: Sample, r: Reading) {
    && x.readAt == r.readAt && x.used == r.used && x.harness == r.harness
    && x.opensAt + r.minutes * 60_000_000_000 == r.resetsAt
  }

  /** The sample stands for the reading: of its instant, of the harness if the reading is, and between the same no lower. */
  predicate StandsFor(x: Sample, r: Reading) {
    x.readAt == r.readAt && (r.harness ==> x.harness) && (r.harness == x.harness ==> r.used <= x.used)
  }

  lemma {:induction false} PlaceTells(epoch: seq<Sample>, v: Sample)
    requires InOrder(epoch)
    ensures forall x <- Place(epoch, v) :: x == v || x in epoch
    ensures forall x <- epoch :: x in Place(epoch, v) || (x.readAt == v.readAt && v in Place(epoch, v) && !Preferred(x, v))
    ensures v in Place(epoch, v) || exists x <- epoch :: x in Place(epoch, v) && x.readAt == v.readAt && !Preferred(v, x)
  {
    if TakenAt(epoch, v.readAt) {
      PlaceReplaces(epoch, v);
      var n := Position(epoch, v.readAt);
      var placed := epoch[n := Kept(v, epoch[n])];
      assert placed[n] in placed && epoch[n] in epoch;
      forall x | x in epoch
        ensures x in placed || x == epoch[n]
      {
        var k :| 0 <= k < |epoch| && epoch[k] == x;
        assert k != n ==> placed[k] == x;
      }
      hide Place, Position;
    } else {
      PlaceInserts(epoch, v);
      var n := Position(epoch, v.readAt);
      assert epoch == epoch[..n] + epoch[n..];
      hide Place, Position, Preferred;
    }
  }

  ghost predicate EachShows(table: seq<Reading>, epoch: seq<Sample>, s: Series, resetsAt: int, now: int) {
    forall x <- epoch :: exists r <- table :: IsOf(x, r) && Counts(r, s, resetsAt, now)
  }

  ghost predicate EachStands(table: seq<Reading>, epoch: seq<Sample>, s: Series, resetsAt: int, now: int) {
    forall r <- table :: Counts(r, s, resetsAt, now) ==> exists x <- epoch :: StandsFor(x, r)
  }

  lemma {:induction false} PlacedShow(front: seq<Reading>, before: seq<Sample>, last: Reading, s: Series, resetsAt: int, now: int)
    requires InOrder(before) && Counts(last, s, resetsAt, now) && EachShows(front, before, s, resetsAt, now)
    ensures EachShows(front + [last], Place(before, SampleOf(last)), s, resetsAt, now)
  {
    hide InOrder, Place, Preferred, SampleOf, IsOf, Counts;
    SampleIsOf(last);
    PlaceTells(before, SampleOf(last));
    forall x | x in Place(before, SampleOf(last))
      ensures exists r <- front + [last] :: IsOf(x, r) && Counts(r, s, resetsAt, now)
    {
      if x == SampleOf(last) {
        assert last in front + [last];
      } else {
        var r :| r in front && IsOf(x, r) && Counts(r, s, resetsAt, now);
        assert r in front + [last];
      }
    }
  }

  lemma {:induction false} PlacedStand(before: seq<Sample>, v: Sample, x: Sample, r: Reading)
    requires InOrder(before) && x in before && StandsFor(x, r)
    ensures exists y <- Place(before, v) :: StandsFor(y, r)
  {
    hide InOrder, Place, Preferred, StandsFor;
    PlaceTells(before, v);
    if x !in Place(before, v) { StandsOn(x, v, r); }
  }

  lemma {:induction false} NewStands(before: seq<Sample>, last: Reading)
    requires InOrder(before)
    ensures exists y <- Place(before, SampleOf(last)) :: StandsFor(y, last)
  {
    hide InOrder, Place, Preferred, StandsFor, SampleOf, IsOf;
    var v := SampleOf(last);
    PlaceTells(before, v);
    SampleIsOf(last);
    if v !in Place(before, v) {
      var x :| x in before && x in Place(before, v) && x.readAt == v.readAt && !Preferred(v, x);
      StandsOn(v, x, last);
    }
  }

  lemma {:induction false} PlacedAllStand(front: seq<Reading>, before: seq<Sample>, last: Reading, s: Series, resetsAt: int, now: int)
    requires InOrder(before) && EachStands(front, before, s, resetsAt, now)
    ensures EachStands(front + [last], Place(before, SampleOf(last)), s, resetsAt, now)
  {
    hide InOrder, Place, StandsFor, SampleOf, Counts;
    forall r | r in front + [last] && Counts(r, s, resetsAt, now)
      ensures exists y <- Place(before, SampleOf(last)) :: StandsFor(y, r)
    {
      if r in front {
        var x :| x in before && StandsFor(x, r);
        PlacedStand(before, SampleOf(last), x, r);
      } else {
        NewStands(before, last);
      }
    }
  }

  lemma {:induction false} EpochHolds(table: seq<Reading>, s: Series, resetsAt: int, now: int)
    ensures EachShows(table, Epoch(table, s, resetsAt, now), s, resetsAt, now)
    ensures EachStands(table, Epoch(table, s, resetsAt, now), s, resetsAt, now)
  {
    if table != [] {
      var front, last := table[..|table| - 1], table[|table| - 1];
      EpochHolds(front, s, resetsAt, now);
      EpochIsOrdered(front, s, resetsAt, now);
      assert table == front + [last];
      if Counts(last, s, resetsAt, now) {
        PlacedShow(front, Epoch(front, s, resetsAt, now), last, s, resetsAt, now);
        PlacedAllStand(front, Epoch(front, s, resetsAt, now), last, s, resetsAt, now);
      }
      hide Counts, IsOf, StandsFor, Place, InOrder;
    }
  }

  /**
   * An epoch holds one sample for each instant at which a measured reading of it
   * was taken by now, in time order: the harness's before the daemon's, then the
   * highest; every sample is a reading's.
   */
  lemma {:induction false} EpochTells(table: seq<Reading>, s: Series, resetsAt: int, now: int)
    ensures var epoch := Epoch(table, s, resetsAt, now);
            && (forall i, j :: 0 <= i < j < |epoch| ==> epoch[i].readAt < epoch[j].readAt)
            && (forall x <- epoch :: exists r <- table ::
                  IsOf(x, r) && !r.estimate && r.readAt <= now && r.kind == s.kind && r.bucket == s.bucket && r.resetsAt == resetsAt)
            && (forall r <- table ::
                  !r.estimate && r.readAt <= now && r.kind == s.kind && r.bucket == s.bucket && r.resetsAt == resetsAt ==>
                  exists x <- epoch :: StandsFor(x, r))
  {
    EpochIsOrdered(table, s, resetsAt, now);
    EpochHolds(table, s, resetsAt, now);
    hide Epoch, IsOf, StandsFor;
  }

  lemma {:induction false} SampleIsOf(r: Reading)
    ensures IsOf(SampleOf(r), r) && StandsFor(SampleOf(r), r)
  {}

  lemma {:induction false} StandsOn(x: Sample, y: Sample, r: Reading)
    requires StandsFor(x, r) && x.readAt == y.readAt && !Preferred(x, y)
    ensures StandsFor(y, r)
  {}

  // --------------------------------------------------------------- telescoping

  /** Readings that never go down. */
  ghost predicate NonDecreasing(epoch: seq<Sample>) {
    forall i, j :: 0 <= i <= j < |epoch| ==> epoch[i].used <= epoch[j].used
  }

  /** The first sample inside the period. */
  function FirstInside(epoch: seq<Sample>, start: int): nat { Position(epoch, start) }

  /** What an epoch is counted from: the last reading before the period, zero if it opened inside, else its own first. */
  function Baseline(epoch: seq<Sample>, start: int): real
    requires FirstInside(epoch, start) < |epoch|
  {
    var n := FirstInside(epoch, start);
    if n > 0 then epoch[n - 1].used else if epoch[0].opensAt >= start then 0.0 else epoch[0].used
  }

  lemma {:induction false} OutsideAddsNothing(epoch: seq<Sample>, n: nat, start: int)
    requires n <= |epoch| && forall i :: 0 <= i < n ==> epoch[i].readAt < start
    ensures EpochUse(epoch, n, start) == 0.0
  {
    if n > 0 { OutsideAddsNothing(epoch, n - 1, start); }
  }

  lemma {:induction false} Telescope(epoch: seq<Sample>, n: nat, start: int)
    requires InOrder(epoch) && NonDecreasing(epoch) && (forall x <- epoch :: x.used >= 0.0)
    requires FirstInside(epoch, start) < n <= |epoch|
    ensures EpochUse(epoch, n, start) == epoch[n - 1].used - Baseline(epoch, start)
    decreases n
  {
    var first := FirstInside(epoch, start);
    PositionMeans(epoch, start);
    if n == first + 1 {
      OutsideAddsNothing(epoch, first, start);
      assert epoch[first] in epoch;
    } else {
      Telescope(epoch, n - 1, start);
      assert epoch[n - 2].used <= epoch[n - 1].used;
    }
    hide Position;
  }

  /** Each reset epoch of non-decreasing readings adds its last reading less its baseline. */
  lemma {:induction false} EpochUseTelescopes(epoch: seq<Sample>, start: int)
    requires InOrder(epoch) && NonDecreasing(epoch) && forall x <- epoch :: x.used >= 0.0
    ensures EpochUse(epoch, |epoch|, start) ==
            if FirstInside(epoch, start) == |epoch| then 0.0 else epoch[|epoch| - 1].used - Baseline(epoch, start)
  {
    if FirstInside(epoch, start) == |epoch| {
      PositionMeans(epoch, start);
      OutsideAddsNothing(epoch, |epoch|, start);
    } else {
      Telescope(epoch, |epoch|, start);
    }
    hide Position;
  }

  // ------------------------------------------------------- one reading arrives

  ghost predicate NonNegative(table: seq<Reading>) { forall r <- table :: r.used >= 0.0 }

  lemma {:induction false} PlacedUsed(epoch: seq<Sample>, v: Sample)
    requires v.used >= 0.0 && forall x <- epoch :: x.used >= 0.0
    ensures forall x <- Place(epoch, v) :: x.used >= 0.0
  {
    if epoch != [] && v.readAt > epoch[0].readAt {
      assert forall x <- epoch[1..] :: x in epoch;
      PlacedUsed(epoch[1..], v);
    }
  }

  lemma {:induction false} EpochUsed(table: seq<Reading>, s: Series, resetsAt: int, now: int)
    requires NonNegative(table)
    ensures forall x <- Epoch(table, s, resetsAt, now) :: x.used >= 0.0
  {
    hide Place, Counts;
    if table != [] {
      var front := table[..|table| - 1];
      assert forall r <- front :: r in table;
      assert table[|table| - 1] in table;
      EpochUsed(front, s, resetsAt, now);
      PlacedUsed(Epoch(front, s, resetsAt, now), SampleOf(table[|table| - 1]));
    }
  }

  lemma {:induction false} OneMore(table: seq<Reading>, v: Reading, s: Series, resetsAt: int, now: int)
    ensures Epoch(table + [v], s, resetsAt, now) ==
            if Counts(v, s, resetsAt, now) then Place(Epoch(table, s, resetsAt, now), SampleOf(v)) else Epoch(table, s, resetsAt, now)
    ensures Resets(table + [v], s) ==
            if v.kind == s.kind && v.bucket == s.bucket && v.resetsAt !in Resets(table, s) then Resets(table, s) + [v.resetsAt]
            else Resets(table, s)
    ensures AllSeries(table + [v]) ==
            if Series(v.kind, v.bucket) in AllSeries(table) then AllSeries(table) else AllSeries(table) + [Series(v.kind, v.bucket)]
  {
    assert (table + [v])[..|table + [v]| - 1] == table && (table + [v])[|table + [v]| - 1] == v;
    hide Counts, Place;
  }

  // ------------------------------------------------ what a series and a period lose

  /** The epoch a reading belongs to. */
  function Own(table: seq<Reading>, v: Reading, now: int): seq<Sample> {
    Epoch(table, Series(v.kind, v.bucket), v.resetsAt, now)
  }

  function WholeUse(epoch: seq<Sample>, start: int): real { EpochUse(epoch, |epoch|, start) }

  /** What the epoch of a reading gains or loses by it. */
  function OwnChange(table: seq<Reading>, v: Reading, start: int, now: int): real {
    WholeUse(Own(table + [v], v, now), start) - WholeUse(Own(table, v, now), start)
  }

  predicate InSeries(v: Reading, s: Series) { v.kind == s.kind && v.bucket == s.bucket }

  lemma {:induction false} ResetsAreDistinct(table: seq<Reading>, s: Series)
    ensures forall i, j :: 0 <= i < j < |Resets(table, s)| ==> Resets(table, s)[i] != Resets(table, s)[j]
  {
    if table != [] { ResetsAreDistinct(table[..|table| - 1], s); }
  }

  lemma {:induction false} UnseenEpoch(table: seq<Reading>, s: Series, resetsAt: int, now: int)
    requires resetsAt !in Resets(table, s)
    ensures Epoch(table, s, resetsAt, now) == []
  {
    hide Place;
    if table != [] { UnseenEpoch(table[..|table| - 1], s, resetsAt, now); }
  }

  lemma {:induction false} UnseenSeries(table: seq<Reading>, s: Series, resetsAt: int, now: int)
    requires s !in AllSeries(table)
    ensures Epoch(table, s, resetsAt, now) == []
  {
    hide Place;
    if table != [] { UnseenSeries(table[..|table| - 1], s, resetsAt, now); }
  }

  lemma {:induction false} OtherEpochsStay(table: seq<Reading>, v: Reading, s: Series, resetsAt: int, now: int)
    requires !InSeries(v, s) || v.resetsAt != resetsAt
    ensures Epoch(table + [v], s, resetsAt, now) == Epoch(table, s, resetsAt, now)
  {
    OneMore(table, v, s, resetsAt, now);
    hide Epoch, Place;
  }

  lemma {:induction false} UseOverChange(table: seq<Reading>, v: Reading, s: Series, resets: seq<int>, start: int, now: int)
    requires forall i, j :: 0 <= i < j < |resets| ==> resets[i] != resets[j]
    ensures UseOver(table + [v], s, resets, start, now) ==
            UseOver(table, s, resets, start, now) + if InSeries(v, s) && v.resetsAt in resets then OwnChange(table, v, start, now) else 0.0
  {
    hide Epoch, EpochUse;
    if resets != [] {
      var front, last := resets[..|resets| - 1], resets[|resets| - 1];
      UseOverChange(table, v, s, front, start, now);
      assert resets == front + [last] && last !in front;
      if !InSeries(v, s) || v.resetsAt != last { OtherEpochsStay(table, v, s, last, now); }
    }
  }

  /** A reading changes the use of its own series by what it changes in its epoch, and no other series. */
  lemma {:induction false} SeriesChange(table: seq<Reading>, v: Reading, s: Series, start: int, now: int)
    ensures SeriesUse(table + [v], s, start, now) ==
            SeriesUse(table, s, start, now) + if InSeries(v, s) then OwnChange(table, v, start, now) else 0.0
  {
    hide Epoch, EpochUse, Resets;
    var resets := Resets(table, s);
    OneMore(table, v, s, v.resetsAt, now);
    ResetsAreDistinct(table, s);
    UseOverChange(table, v, s, resets, start, now);
    if InSeries(v, s) && v.resetsAt !in resets {
      UnseenEpoch(table, s, v.resetsAt, now);
      assert Series(v.kind, v.bucket) == s;
      NoUse(start);
      var more := resets + [v.resetsAt];
      assert more[..|more| - 1] == resets;
    }
  }

  lemma {:induction false} NoUse(start: int)
    ensures EpochUse([], 0, start) == 0.0
  {}

  lemma {:induction false} UseIsPositive(epoch: seq<Sample>, n: nat, start: int)
    requires n <= |epoch|
    ensures EpochUse(epoch, n, start) >= 0.0
  {
    if n > 0 { UseIsPositive(epoch, n - 1, start); }
  }

  lemma {:induction false} UseOverIsPositive(table: seq<Reading>, s: Series, resets: seq<int>, start: int, now: int)
    ensures UseOver(table, s, resets, start, now) >= 0.0
  {
    hide Epoch, EpochUse;
    if resets != [] {
      UseOverIsPositive(table, s, resets[..|resets| - 1], start, now);
      var epoch := Epoch(table, s, resets[|resets| - 1], now);
      UseIsPositive(epoch, |epoch|, start);
    }
  }

  /** The largest use is one of them, or zero when there is none above it. */
  lemma {:induction false} LargestIsMaximum(table: seq<Reading>, series: seq<Series>, start: int, now: int)
    ensures forall s <- series :: SeriesUse(table, s, start, now) <= Largest(table, series, start, now)
    ensures Largest(table, series, start, now) == 0.0
            || exists s <- series :: SeriesUse(table, s, start, now) == Largest(table, series, start, now)
  {
    hide SeriesUse;
    if series != [] {
      var front, last := series[..|series| - 1], series[|series| - 1];
      LargestIsMaximum(table, front, start, now);
      assert series == front + [last];
    }
  }

  lemma {:induction false} SeriesOfReadings(table: seq<Reading>, s: Series)
    ensures s in AllSeries(table) <==> exists r <- table :: r.kind == s.kind && r.bucket == s.bucket
    ensures forall at :: at in Resets(table, s) <==> exists r <- table :: r.kind == s.kind && r.bucket == s.bucket && r.resetsAt == at
  {
    if table != [] {
      var front, last := table[..|table| - 1], table[|table| - 1];
      SeriesOfReadings(front, s);
      assert table == front + [last];
    }
  }

  /** A period counts the largest sum, over the series of the readings, of what each of their reset epochs adds, once. */
  lemma {:induction false} PeriodTells(table: seq<Reading>, start: int, now: int)
    ensures forall r <- table :: SeriesUse(table, Series(r.kind, r.bucket), start, now) <= PercentUsed(table, start, now)
    ensures forall r <- table :: multiset(Resets(table, Series(r.kind, r.bucket)))[r.resetsAt] == 1
    ensures PercentUsed(table, start, now) == 0.0
            || exists r <- table :: SeriesUse(table, Series(r.kind, r.bucket), start, now) == PercentUsed(table, start, now)
  {
    hide SeriesUse, Largest, AllSeries, Resets;
    LargestIsMaximum(table, AllSeries(table), start, now);
    forall r | r in table
      ensures Series(r.kind, r.bucket) in AllSeries(table) && multiset(Resets(table, Series(r.kind, r.bucket)))[r.resetsAt] == 1
    {
      var s := Series(r.kind, r.bucket);
      SeriesOfReadings(table, s);
      ResetsAreDistinct(table, s);
      OnceEach(Resets(table, s), r.resetsAt);
    }
    forall s | s in AllSeries(table)
      ensures exists r <- table :: Series(r.kind, r.bucket) == s
    {
      SeriesOfReadings(table, s);
    }
  }

  lemma {:induction false} OnceEach(resets: seq<int>, at: int)
    requires at in resets && forall i, j :: 0 <= i < j < |resets| ==> resets[i] != resets[j]
    ensures multiset(resets)[at] == 1
  {
    var front, last := resets[..|resets| - 1], resets[|resets| - 1];
    assert resets == front + [last];
    if at == last { assert at !in front && at !in multiset(front); } else { OnceEach(front, at); }
  }

  /** A series whose use is above that of every other one. */
  predicate Leads(table: seq<Reading>, s: Series, start: int, now: int) {
    forall x <- AllSeries(table) :: x != s ==> SeriesUse(table, x, start, now) < SeriesUse(table, s, start, now)
  }

  /** The period's use falls exactly when its leading series, and only that one, loses by the reading. */
  lemma {:induction false} PeriodFalls(table: seq<Reading>, v: Reading, start: int, now: int)
    ensures PercentUsed(table + [v], start, now) < PercentUsed(table, start, now) <==>
            OwnChange(table, v, start, now) < 0.0 && Leads(table, Series(v.kind, v.bucket), start, now)
  {
    hide SeriesUse, Largest, AllSeries, OwnChange;
    var own := Series(v.kind, v.bucket);
    var before, after := AllSeries(table), AllSeries(table + [v]);
    OneMore(table, v, own, v.resetsAt, now);
    LargestIsMaximum(table, before, start, now);
    LargestIsMaximum(table + [v], after, start, now);
    forall s: Series
      ensures SeriesUse(table + [v], s, start, now) ==
              SeriesUse(table, s, start, now) + if s == own then OwnChange(table, v, start, now) else 0.0
    {
      SeriesChange(table, v, s, start, now);
    }
    SeriesIsPositive(table + [v], own, start, now);
    if OwnChange(table, v, start, now) < 0.0 { LosersAreKnown(table, v, start, now); }
    LargestIsPositive(table + [v], after, start, now);
  }

  lemma {:induction false} LargestIsPositive(table: seq<Reading>, series: seq<Series>, start: int, now: int)
    ensures Largest(table, series, start, now) >= 0.0
  {
    hide SeriesUse;
    if series != [] { LargestIsPositive(table, series[..|series| - 1], start, now); }
  }

  lemma {:induction false} SeriesIsPositive(table: seq<Reading>, s: Series, start: int, now: int)
    ensures SeriesUse(table, s, start, now) >= 0.0
  {
    UseOverIsPositive(table, s, Resets(table, s), start, now);
    hide UseOver;
  }

  lemma {:induction false} LosersAreKnown(table: seq<Reading>, v: Reading, start: int, now: int)
    requires OwnChange(table, v, start, now) < 0.0
    ensures Series(v.kind, v.bucket) in AllSeries(table)
  {
    hide AllSeries, Epoch, EpochUse;
    var own := Series(v.kind, v.bucket);
    if own !in AllSeries(table) {
      UnseenSeries(table, own, v.resetsAt, now);
      NoUse(start);
      var epoch := Own(table + [v], v, now);
      UseIsPositive(epoch, |epoch|, start);
    }
  }

  lemma {:induction false} OwnFalls(table: seq<Reading>, v: Reading, start: int, now: int)
    requires NonNegative(table) && v.used >= 0.0
    ensures OwnChange(table, v, start, now) < 0.0 <==>
            !v.estimate && v.readAt <= now && Lowers(Own(table, v, now), SampleOf(v), start)
  {
    var s := Series(v.kind, v.bucket);
    OneMore(table, v, s, v.resetsAt, now);
    EpochIsOrdered(table, s, v.resetsAt, now);
    EpochUsed(table, s, v.resetsAt, now);
    LowersExactly(Own(table, v, now), SampleOf(v), start);
    hide Epoch, EpochUse, Lowers, Place;
  }

  /**
   * Exactly which readings lower what a period counts: those that are measured
   * by now, lower their own epoch, and belong to the one series that leads.
   */
  lemma {:induction false} ReadingsLowerExactly(table: seq<Reading>, v: Reading, start: int, now: int)
    requires NonNegative(table) && v.used >= 0.0
    ensures PercentUsed(table + [v], start, now) < PercentUsed(table, start, now) <==>
            && !v.estimate && v.readAt <= now
            && Lowers(Own(table, v, now), SampleOf(v), start)
            && Leads(table, Series(v.kind, v.bucket), start, now)
  {
    hide *;
    OwnFalls(table, v, start, now);
    PeriodFalls(table, v, start, now);
  }

  lemma {:induction false} AllBefore(epoch: seq<Sample>, at: int)
    requires forall x <- epoch :: x.readAt < at
    ensures Position(epoch, at) == |epoch| && !TakenAt(epoch, at)
  {
    if epoch != [] {
      assert epoch[0] in epoch && forall x <- epoch[1..] :: x in epoch;
      AllBefore(epoch[1..], at);
    }
    assert forall i :: 0 <= i < |epoch| ==> epoch[i] in epoch;
  }

  /** So a later reading never lowers it, whatever it says: corrections refund nothing. */
  lemma {:induction false} LaterReadingsNeverLower(table: seq<Reading>, v: Reading, start: int, now: int)
    requires NonNegative(table) && v.used >= 0.0
    requires forall r <- table :: r.kind == v.kind && r.bucket == v.bucket && r.resetsAt == v.resetsAt ==> r.readAt < v.readAt
    ensures PercentUsed(table + [v], start, now) >= PercentUsed(table, start, now)
  {
    var s := Series(v.kind, v.bucket);
    var epoch := Own(table, v, now);
    EpochIsOrdered(table, s, v.resetsAt, now);
    EpochTimes(table, s, v.resetsAt, now, v.readAt);
    AllBefore(epoch, v.readAt);
    assert !Lowers(epoch, SampleOf(v), start);
    ReadingsLowerExactly(table, v, start, now);
    hide PercentUsed, Leads;
  }

  lemma {:induction false} EpochTimes(table: seq<Reading>, s: Series, resetsAt: int, now: int, at: int)
    requires forall r <- table :: r.kind == s.kind && r.bucket == s.bucket && r.resetsAt == resetsAt ==> r.readAt < at
    ensures forall x <- Epoch(table, s, resetsAt, now) :: x.readAt < at
  {
    hide Place;
    if table != [] {
      var front, r := table[..|table| - 1], table[|table| - 1];
      assert (forall x <- front :: x in table) && r in table;
      EpochTimes(front, s, resetsAt, now, at);
      EpochIsOrdered(front, s, resetsAt, now);
      PlaceKeepsOrder(Epoch(front, s, resetsAt, now), SampleOf(r));
    }
  }

  /** Inside the period a new instant never lowers an epoch whose readings agree on when it opened. */
  lemma {:induction false} InsertedInsideNeverLowers(epoch: seq<Sample>, v: Sample, start: int)
    requires v.readAt >= start && !TakenAt(epoch, v.readAt) && forall x <- epoch :: x.opensAt == v.opensAt
    ensures !Lowers(epoch, v, start)
  {
    var n := Position(epoch, v.readAt);
    if n < |epoch| { assert epoch[n] in epoch; }
    hide Position, TakenAt, ReplacementLowers;
  }

  // ------------------------------------------------------- where it is lowered

  /** A late reading from before the period can raise the baseline and lower the use. */
  lemma {:induction false} LateBaselineLowers()
    ensures var epoch := [Sample(1, 10.0, false, 0), Sample(20, 50.0, false, 0)];
            var late := Sample(5, 45.0, false, 0);
            EpochUse(epoch, 2, 10) == 40.0 && EpochUse(Place(epoch, late), 3, 10) == 5.0
  {
    var epoch := [Sample(1, 10.0, false, 0), Sample(20, 50.0, false, 0)];
    var late := Sample(5, 45.0, false, 0);
    assert epoch[1..] == [epoch[1]] && Place([epoch[1]], late) == [late, epoch[1]];
    var placed := Place(epoch, late);
    assert placed == [epoch[0], late, epoch[1]];
    assert EpochUse(epoch, 1, 10) == 0.0 && EpochUse(placed, 1, 10) == 0.0 && EpochUse(placed, 2, 10) == 0.0;
  }

  /** The harness's lower figure for the same instant replaces the daemon's and lowers the use. */
  lemma {:induction false} SameInstantReplacementLowers()
    ensures var epoch := [Sample(1, 0.0, false, 0), Sample(20, 50.0, false, 0)];
            var replacing := Sample(20, 30.0, true, 0);
            EpochUse(epoch, 2, 10) == 50.0 && |Place(epoch, replacing)| == 2 && EpochUse(Place(epoch, replacing), 2, 10) == 30.0
  {
    var epoch := [Sample(1, 0.0, false, 0), Sample(20, 50.0, false, 0)];
    var replacing := Sample(20, 30.0, true, 0);
    assert epoch[1..] == [epoch[1]] && Place([epoch[1]], replacing) == [replacing] + [];
    var placed := Place(epoch, replacing);
    assert placed == [epoch[0], replacing];
    assert EpochUse(epoch, 1, 10) == 0.0 && EpochUse(placed, 1, 10) == 0.0;
  }

  /** A second phase of one source can do so as well: the higher figure wins, here the one nearer to its neighbours. */
  lemma {:induction false} SamePhaseReplacementLowers()
    ensures var epoch := [Sample(12, 50.0, false, 0), Sample(15, 10.0, false, 0), Sample(20, 60.0, false, 0)];
            var replacing := Sample(15, 30.0, false, 0);
            EpochUse(epoch, 3, 10) == 50.0 && |Place(epoch, replacing)| == 3 && EpochUse(Place(epoch, replacing), 3, 10) == 30.0
  {
    var epoch := [Sample(12, 50.0, false, 0), Sample(15, 10.0, false, 0), Sample(20, 60.0, false, 0)];
    var replacing := Sample(15, 30.0, false, 0);
    assert epoch[1..] == [epoch[1], epoch[2]] && epoch[1..][1..] == [epoch[2]];
    var placed := Place(epoch, replacing);
    assert Place(epoch[1..], replacing) == [replacing] + epoch[1..][1..];
    assert placed == [epoch[0], replacing, epoch[2]];
    assert EpochUse(epoch, 1, 10) == 0.0 && EpochUse(placed, 1, 10) == 0.0;
    assert EpochUse(epoch, 2, 10) == 0.0 && EpochUse(placed, 2, 10) == 0.0;
  }

  /** Readings that disagree on when their epoch opened: the earlier one takes the count from zero away. */
  lemma {:induction false} DisagreeingOpeningLowers()
    ensures var epoch := [Sample(20, 50.0, false, 15)];
            var earlier := Sample(12, 30.0, false, 5);
            EpochUse(epoch, 1, 10) == 50.0 && |Place(epoch, earlier)| == 2 && EpochUse(Place(epoch, earlier), 2, 10) == 20.0
  {
    var epoch := [Sample(20, 50.0, false, 15)];
    var placed := Place(epoch, Sample(12, 30.0, false, 5));
    assert placed == [Sample(12, 30.0, false, 5), epoch[0]];
    assert EpochUse(epoch, 0, 10) == 0.0 && EpochUse(placed, 1, 10) == 0.0;
  }
}
