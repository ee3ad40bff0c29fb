/**
 * Vendor readings and the windows they drive (`ingestLockedReadings` in
 * internal/agentaccounts/capacity.go) for one account. Readings arrive out of
 * order from two measuring sources; estimates are stored but drive no window.
 * Times are nanoseconds after the zero time.
 */
module CapacityReadings {
  import opened Wrappers

  datatype Source = Harness | Agentd | Estimate

  datatype Reading = Reading(
    kind: string, bucket: string, minutes: int, used: real, resetsAt: int, readAt: int,
    source: Source, authority: Option<bool>, phase: string)

  /** The key of a window row. */
  datatype Slot = Slot(kind: string, bucket: string, endsAt: int)

  datatype Window = Window(
    startsAt: int, used: int, readAt: int, allowed: bool, retired: bool, source: Source, refreshRun: Option<string>)

  datatype Store = Store(table: seq<Reading>, windows: map<Slot, Window>)

  const MINUTE: int := 60_000_000_000

  predicate InBucket(r: Reading, kind: string, bucket: string) { r.kind == kind && r.bucket == bucket }

  predicate Measures(r: Reading) { !r.source.Estimate? }

  // -------------------------------------------------------------- the table

  /** The unique key of the readings table. */
  predicate SameSample(a: Reading, b: Reading) {
    a.kind == b.kind && a.bucket == b.bucket && a.readAt == b.readAt && a.source == b.source && a.phase == b.phase
  }

  predicate Stored(table: seq<Reading>, v: Reading) { exists k :: 0 <= k < |table| && SameSample(table[k], v) }

  /** A measured reading of the bucket that outranks `v`: later, or the harness at the same time. */
  predicate Outranks(r: Reading, v: Reading) {
    && Measures(r) && InBucket(r, v.kind, v.bucket)
    && (r.readAt > v.readAt || (r.readAt == v.readAt && r.source.Harness? && !v.source.Harness?))
  }

  /** Something newer is known: in the bucket, or from the same source after the snapshot. */
  predicate Superseded(table: seq<Reading>, v: Reading, snapshotAt: int) {
    || (exists k :: 0 <= k < |table| && Outranks(table[k], v))
    || (exists k :: 0 <= k < |table| && table[k].source == v.source && table[k].readAt > snapshotAt)
  }

  // ----------------------------------------------------------- the authority

  predicate Denies(r: Reading) { r.authority.Some? && !r.authority.value }

  predicate Permits(r: Reading) { r.authority.Some? && r.authority.value }

  /** `ORDER BY read_at DESC, harness first, false first`. */
  predicate Before(a: Reading, b: Reading) {
    || a.readAt > b.readAt
    || (a.readAt == b.readAt && a.source.Harness? && !b.source.Harness?)
    || (a.readAt == b.readAt && (a.source.Harness? <==> b.source.Harness?) && Denies(a) && Permits(b))
  }

  /** An explicit vendor authority for the bucket. */
  predicate Explicit(r: Reading, kind: string, bucket: string) {
    InBucket(r, kind, bucket) && Measures(r) && r.authority.Some?
  }

  function NewestExplicit(table: seq<Reading>, kind: string, bucket: string): Option<Reading> {
    if table == [] then None
    else
      var r := table[|table| - 1];
      var best := NewestExplicit(table[..|table| - 1], kind, bucket);
      if Explicit(r, kind, bucket) && (best.None? || Before(r, best.value)) then Some(r) else best
  }

  /** The newest explicit authority of the bucket. */
  function Authority(table: seq<Reading>, kind: string, bucket: string): Option<bool> {
    match NewestExplicit(table, kind, bucket)
    case None => None
    case Some(r) => r.authority
  }

  lemma {:induction false} NewestExplicitIsFirst(table: seq<Reading>, kind: string, bucket: string)
    ensures NewestExplicit(table, kind, bucket).None? ==> forall r <- table :: !Explicit(r, kind, bucket)
    ensures NewestExplicit(table, kind, bucket).Some? ==>
              var best := NewestExplicit(table, kind, bucket).value;
              && best in table && Explicit(best, kind, bucket)
              && forall r <- table :: Explicit(r, kind, bucket) ==> !Before(r, best)
  {
    if table != [] {
      var front := table[..|table| - 1];
      NewestExplicitIsFirst(front, kind, bucket);
      assert table == front + [table[|table| - 1]];
      hide Explicit;
    }
  }

  // -------------------------------------------------------------- one reading

  function Ceil(v: real): int { -((-v).Floor) }

  /** The windows after a winning reading: older estimates and the whole bucket retired, its window written. */
  function Written(windows: map<Slot, Window>, table: seq<Reading>, v: Reading): map<Slot, Window> {
    var slot := Slot(v.kind, v.bucket, v.resetsAt);
    var retired := RetireForReading(windows, v);
    var allowed := Authority(table, v.kind, v.bucket).GetOr(true);
    var refresh := if slot in windows && v.readAt <= windows[slot].readAt then windows[slot].refreshRun else None;
    retired[slot := Window(v.resetsAt - v.minutes * MINUTE, Ceil(v.used), v.readAt, allowed, false, v.source, refresh)]
  }

  function RetireForReading(windows: map<Slot, Window>, v: Reading): map<Slot, Window> {
    map s | s in windows ::
      if s.kind == v.kind && s.bucket == v.bucket then windows[s].(allowed := false, retired := true)
      else if windows[s].source.Estimate? && windows[s].readAt < v.readAt then windows[s].(retired := true)
      else windows[s]
  }

  predicate Writes(s: Store, v: Reading, snapshotAt: int) {
    !Stored(s.table, v) && Measures(v) && !Superseded(s.table + [v], v, snapshotAt)
  }

  function Step(s: Store, v: Reading, snapshotAt: int): Store {
    if Stored(s.table, v) then s
    else
      var table := s.table + [v];
      if Writes(s, v, snapshotAt) then Store(table, Written(s.windows, table, v)) else Store(table, s.windows)
  }

  // -------------------------------------------------------------- one snapshot

  /** The newest time of a source in the snapshot; the zero time without one. */
  function SnapshotAt(readings: seq<Reading>, source: Source): int {
    if readings == [] then 0
    else
      var r := readings[|readings| - 1];
      var before := SnapshotAt(readings[..|readings| - 1], source);
      if r.source == source && r.readAt > before then r.readAt else before
  }

  function Steps(s: Store, readings: seq<Reading>, n: nat): Store
    requires n <= |readings|
  {
    if n == 0 then s
    else Step(Steps(s, readings, n - 1), readings[n - 1], SnapshotAt(readings, readings[n - 1].source))
  }

  /** A full snapshot retires its source's windows it does not mention, unless that source has reported since. */
  predicate Unmentioned(table: seq<Reading>, readings: seq<Reading>, source: Source, slot: Slot, w: Window) {
    var at := SnapshotAt(readings, source);
    && w.source == source && w.readAt <= at
    && (forall k :: 0 <= k < |readings| ==> !(readings[k].source == source && InBucket(readings[k], slot.kind, slot.bucket)))
    && (forall k :: 0 <= k < |table| ==> !(table[k].source == source && table[k].readAt > at))
  }

  function RetireUnmentioned(s: Store, readings: seq<Reading>, source: Source): Store {
    if SnapshotAt(readings, source) == 0 then s
    else
      s.(windows := map slot | slot in s.windows ::
           if Unmentioned(s.table, readings, source, slot, s.windows[slot]) then s.windows[slot].(retired := true) else s.windows[slot])
  }

  function Ingested(s: Store, readings: seq<Reading>, full: bool): Store {
    var stepped := Steps(s, readings, |readings|);
    if full then RetireUnmentioned(RetireUnmentioned(stepped, readings, Harness), readings, Agentd) else stepped
  }

  // ---------------------------------------------------------- the transaction

  class ReadingStore {
    var table: seq<Reading>
    var windows: map<Slot, Window>

    constructor ()
      ensures State() == Store([], map[])
    {
      table, windows := [], map[];
    }

    function State(): Store
      reads this
    {
      Store(table, windows)
    }

    /** `ingestLockedReadings`. A reading that is not accepted rolls the whole snapshot back. */
    method Ingest(readings: seq<Reading>, full: bool, accepts: Reading -> bool) returns (ok: bool)
      modifies this
      ensures ok <==> forall v <- readings :: accepts(v)
      ensures State() == if ok then Ingested(old(State()), readings, full) else old(State())
    {
      hide Step, Written, RetireUnmentioned, SnapshotAt;
      var s := State();
      for i := 0 to |readings|
        invariant s == Steps(old(State()), readings, i) && State() == old(State())
        invariant forall v <- readings[..i] :: accepts(v)
      {
        var v := readings[i];
        assert readings[..i + 1] == readings[..i] + [v];
        if !accepts(v) {
          assert v in readings;
          return false;
        }
        var at := NewestOf(readings, v.source);
        s := Insert(s, v, at);
      }
      assert readings[..|readings|] == readings;
      if full {
        s := RetireSource(s, readings, Harness);
        s := RetireSource(s, readings, Agentd);
      }
      table, windows := s.table, s.windows;
      ok := true;
    }
  }

  method NewestOf(readings: seq<Reading>, source: Source) returns (at: int)
    ensures at == SnapshotAt(readings, source)
  {
    at := 0;
    for i := 0 to |readings|
      invariant at == SnapshotAt(readings[..i], source)
    {
      assert readings[..i + 1][..i] == readings[..i];
      if readings[i].source == source && readings[i].readAt > at { at := readings[i].readAt; }
    }
    assert readings[..|readings|] == readings;
  }

  /** One reading: insert, compare, and for the winner write its window. */
  method Insert(s: Store, v: Reading, snapshotAt: int) returns (t: Store)
    ensures t == Step(s, v, snapshotAt)
  {
    hide Superseded, Stored, Written;
    if Stored(s.table, v) { return s; }
    var table := s.table + [v];
    if Superseded(table, v, snapshotAt) || v.source.Estimate? { return Store(table, s.windows); }
    var windows := WriteWindow(s.windows, table, v);
    t := Store(table, windows);
  }

  /** Retire older estimates and the bucket, read the authority, upsert the window. */
  method WriteWindow(before: map<Slot, Window>, table: seq<Reading>, v: Reading) returns (windows: map<Slot, Window>)
    ensures windows == Written(before, table, v)
  {
    hide Authority, Ceil;
    windows := map slot | slot in before ::
      if before[slot].source.Estimate? && before[slot].readAt < v.readAt then before[slot].(retired := true) else before[slot];
    windows := map slot | slot in windows ::
      if slot.kind == v.kind && slot.bucket == v.bucket then windows[slot].(allowed := false, retired := true) else windows[slot];
    assert windows == RetireForReading(before, v);
    var allowed := true;
    var authority := Authority(table, v.kind, v.bucket);
    if authority.Some? { allowed := authority.value; }
    var slot := Slot(v.kind, v.bucket, v.resetsAt);
    var refresh: Option<string> := None;
    if slot in windows && v.readAt <= windows[slot].readAt { refresh := windows[slot].refreshRun; }
    windows := windows[slot := Window(v.resetsAt - v.minutes * MINUTE, Ceil(v.used), v.readAt, allowed, false, v.source, refresh)];
  }

  method RetireSource(s: Store, readings: seq<Reading>, source: Source) returns (t: Store)
    ensures t == RetireUnmentioned(s, readings, source)
  {
    var at := NewestOf(readings, source);
    if at == 0 { return s; }
    t := s.(windows := map slot | slot in s.windows ::
           if Unmentioned(s.table, readings, source, slot, s.windows[slot]) then s.windows[slot].(retired := true) else s.windows[slot]);
  }
}
