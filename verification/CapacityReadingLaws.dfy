/** What every sequence of snapshots keeps, out of order and from both sources. */
module CapacityReadingLaws {
  import opened Wrappers
  import opened CapacityReadings

  predicate SameBucket(a: Slot, b: Slot) { a.kind == b.kind && a.bucket == b.bucket }

  /** A window written from a measured reading. */
  predicate Measured(s: Store, slot: Slot) { slot in s.windows && !s.windows[slot].source.Estimate? }

  predicate Live(s: Store, slot: Slot) { Measured(s, slot) && !s.windows[slot].retired }

  /** The window shows a reading of its slot: its source and time, its percent rounded up, and the interval it measures. */
  predicate Shows(w: Window, slot: Slot, r: Reading) {
    && r.kind == slot.kind && r.bucket == slot.bucket && r.resetsAt == slot.endsAt && r.source == w.source && r.readAt == w.readAt
    && r.used <= w.used as real < r.used + 1.0
    && w.startsAt == r.resetsAt - r.minutes * 60_000_000_000
  }

  /** Some stored measured reading of the slot is what the window shows. */
  ghost predicate Backed(table: seq<Reading>, slot: Slot, w: Window) {
    exists k :: 0 <= k < |table| && !table[k].source.Estimate? && Shows(w, slot, table[k])
  }

  /**
   * The state every snapshot keeps: at most one unretired measured window in a
   * bucket, and every measured window shows a stored reading of its slot.
   */
  ghost predicate Sound(s: Store) {
    && (forall a, b :: Live(s, a) && Live(s, b) && SameBucket(a, b) ==> a == b)
    && (forall a :: Measured(s, a) ==> Backed(s.table, a, s.windows[a]))
  }

  /**
   * Nothing moves back: every measured window keeps or raises its reading time,
   * and a live window is either the one that was live or read no earlier than
   * any window its bucket had.
   */
  ghost predicate Forward(s: Store, t: Store) {
    && (forall a :: Measured(s, a) ==> Measured(t, a) && t.windows[a].readAt >= s.windows[a].readAt)
    && (forall a, b :: Measured(s, a) && Live(t, b) && SameBucket(a, b) ==>
          t.windows[b].readAt >= s.windows[a].readAt || (Live(s, b) && t.windows[b].readAt == s.windows[b].readAt))
  }

  lemma {:induction false} ForwardChains(s: Store, t: Store, u: Store)
    requires Forward(s, t) && Forward(t, u)
    ensures Forward(s, u)
  {
    forall a, b | Measured(s, a) && Live(u, b) && SameBucket(a, b)
      ensures u.windows[b].readAt >= s.windows[a].readAt || (Live(s, b) && u.windows[b].readAt == s.windows[b].readAt)
    {
      assert Measured(t, a);
    }
  }

  lemma {:induction false} ForwardReflexive(s: Store)
    ensures Forward(s, s)
  {}

  lemma {:induction false} BackedStays(table: seq<Reading>, v: Reading, slot: Slot, w: Window)
    requires Backed(table, slot, w)
    ensures Backed(table + [v], slot, w)
  {
    hide Shows;
    var k :| 0 <= k < |table| && !table[k].source.Estimate? && Shows(w, slot, table[k]);
    assert (table + [v])[k] == table[k];
  }

  /** Retiring a window or withdrawing its flag leaves what it shows. */
  lemma {:induction false} SameShown(table: seq<Reading>, slot: Slot, w: Window, u: Window)
    requires u == w.(allowed := u.allowed, retired := u.retired) && Backed(table, slot, w)
    ensures Backed(table, slot, u)
  {
    var k :| 0 <= k < |table| && !table[k].source.Estimate? && Shows(w, slot, table[k]);
    assert Shows(u, slot, table[k]);
  }

  /** A reading that is written is not older than any window of its bucket. */
  lemma {:induction false} WrittenIsNewest(s: Store, v: Reading, snapshotAt: int, a: Slot)
    requires Sound(s) && Writes(s, v, snapshotAt) && Measured(s, a) && a.kind == v.kind && a.bucket == v.bucket
    ensures s.windows[a].readAt <= v.readAt
  {
    assert Backed(s.table, a, s.windows[a]);
    var k :| 0 <= k < |s.table| && !s.table[k].source.Estimate? && Shows(s.windows[a], a, s.table[k]);
    assert (s.table + [v])[k] == s.table[k];
    assert !Outranks((s.table + [v])[k], v);
  }

  lemma {:induction false} WrittenWindows(s: Store, v: Reading, snapshotAt: int)
    requires Writes(s, v, snapshotAt)
    ensures var t := Step(s, v, snapshotAt);
            var slot := Slot(v.kind, v.bucket, v.resetsAt);
            && Live(t, slot) && t.windows[slot].readAt == v.readAt && t.table == s.table + [v]
            && Shows(t.windows[slot], slot, v) && !v.source.Estimate?
            && (forall a :: a != slot && SameBucket(a, slot) ==> !Live(t, a))
            && (forall a :: a != slot ==> (Measured(t, a) <==> Measured(s, a)) && (Live(t, a) ==> Live(s, a)))
            && (forall a :: a != slot && a in s.windows ==>
                  a in t.windows && t.windows[a] == s.windows[a].(allowed := t.windows[a].allowed, retired := t.windows[a].retired))
  {
    CeilRounds(v.used);
    hide Authority, Superseded, Stored, Ceil;
  }

  lemma {:induction false} CeilRounds(x: real)
    ensures x <= Ceil(x) as real < x + 1.0
  {}

  /**
   * A written reading retires the rest of its bucket and every older estimate;
   * no other window changes, and none but its bucket's loses its flag. A fence of
   * the slot for a refresh run holds on only under the reading it was made on.
   */
  lemma {:induction false} WrittenRetires(s: Store, v: Reading, snapshotAt: int)
    requires Sound(s) && Writes(s, v, snapshotAt)
    ensures var t := Step(s, v, snapshotAt);
            var slot := Slot(v.kind, v.bucket, v.resetsAt);
            && t.windows.Keys == s.windows.Keys + {slot}
            && (forall a <- s.windows :: a != slot && a.kind == v.kind && a.bucket == v.bucket ==>
                  t.windows[a].retired && !t.windows[a].allowed)
            && (forall a <- s.windows :: !(a.kind == v.kind && a.bucket == v.bucket) ==>
                  t.windows[a] ==
                  s.windows[a].(retired := s.windows[a].retired || (s.windows[a].source.Estimate? && s.windows[a].readAt < v.readAt)))
            && (t.windows[slot].refreshRun.Some? ==>
                  slot in s.windows && t.windows[slot].refreshRun == s.windows[slot].refreshRun)
            && (Measured(s, slot) ==>
                  t.windows[slot].refreshRun == if s.windows[slot].readAt == v.readAt then s.windows[slot].refreshRun else None)
  {
    var slot := Slot(v.kind, v.bucket, v.resetsAt);
    if Measured(s, slot) { WrittenIsNewest(s, v, snapshotAt, slot); }
    hide Authority, Superseded, Stored, Ceil, Sound;
  }

  lemma {:induction false} StepKeepsSound(s: Store, v: Reading, snapshotAt: int)
    requires Sound(s)
    ensures Sound(Step(s, v, snapshotAt)) && Forward(s, Step(s, v, snapshotAt))
  {
    var t := Step(s, v, snapshotAt);
    if Writes(s, v, snapshotAt) {
      WrittenWindows(s, v, snapshotAt);
      var slot := Slot(v.kind, v.bucket, v.resetsAt);
      forall a | Measured(t, a)
        ensures Backed(t.table, a, t.windows[a])
      {
        if a == slot {
          assert (s.table + [v])[|s.table|] == v;
        } else {
          BackedStays(s.table, v, a, s.windows[a]);
          SameShown(s.table + [v], a, s.windows[a], t.windows[a]);
        }
      }
      forall a | Measured(s, a) && SameBucket(a, slot)
        ensures s.windows[a].readAt <= v.readAt
      {
        WrittenIsNewest(s, v, snapshotAt, a);
      }
      hide Step, Writes, Backed, Live, Measured;
    } else if !Stored(s.table, v) {
      forall a | Measured(s, a) ensures Backed(s.table + [v], a, s.windows[a]) {
        BackedStays(s.table, v, a, s.windows[a]);
      }
      hide Stored, Writes, Backed;
    } else {
      hide Stored, Writes, Backed;
    }
  }

  lemma {:induction false} RetireKeepsSound(s: Store, readings: seq<Reading>, source: Source)
    requires Sound(s)
    ensures Sound(RetireUnmentioned(s, readings, source)) && Forward(s, RetireUnmentioned(s, readings, source))
  {
    var t := RetireUnmentioned(s, readings, source);
    assert forall a :: (Measured(t, a) <==> Measured(s, a)) && (Live(t, a) ==> Live(s, a))
                       && (Measured(s, a) ==> t.windows[a] == s.windows[a].(retired := t.windows[a].retired)) by {
      hide Unmentioned, SnapshotAt;
    }
    assert t.table == s.table;
    forall a | Measured(t, a)
      ensures Backed(t.table, a, t.windows[a])
    {
      assert Backed(s.table, a, s.windows[a]);
      SameShown(s.table, a, s.windows[a], t.windows[a]);
    }
    hide RetireUnmentioned, Live, Measured, Backed;
  }

  lemma {:induction false} StepsKeepSound(s: Store, readings: seq<Reading>, n: nat)
    requires Sound(s) && n <= |readings|
    ensures Sound(Steps(s, readings, n)) && Forward(s, Steps(s, readings, n))
  {
    hide Step, Sound, Forward, SnapshotAt;
    if n == 0 {
      ForwardReflexive(s);
    } else {
      StepsKeepSound(s, readings, n - 1);
      var before := Steps(s, readings, n - 1);
      StepKeepsSound(before, readings[n - 1], SnapshotAt(readings, readings[n - 1].source));
      ForwardChains(s, before, Steps(s, readings, n));
    }
  }

  lemma {:induction false} IngestKeepsSound(s: Store, readings: seq<Reading>, full: bool)
    requires Sound(s)
    ensures Sound(Ingested(s, readings, full)) && Forward(s, Ingested(s, readings, full))
  {
    hide Sound, Forward, Steps, RetireUnmentioned;
    var a := Steps(s, readings, |readings|);
    StepsKeepSound(s, readings, |readings|);
    if full {
      var b := RetireUnmentioned(a, readings, Harness);
      RetireKeepsSound(a, readings, Harness);
      RetireKeepsSound(b, readings, Agentd);
      ForwardChains(s, a, b);
      ForwardChains(s, b, RetireUnmentioned(b, readings, Agentd));
    }
  }

  // ------------------------------------------------------- a full snapshot

  /** The newest reading of a source in a snapshot, after the zero time. */
  predicate IsNewestOf(readings: seq<Reading>, source: Source, v: Reading) {
    v in readings && v.source == source && v.readAt > 0 && forall r <- readings :: r.source == source ==> r.readAt <= v.readAt
  }

  lemma {:induction false} SnapshotIsNewest(readings: seq<Reading>, source: Source)
    ensures SnapshotAt(readings, source) >= 0 && forall r <- readings :: r.source == source ==> r.readAt <= SnapshotAt(readings, source)
    ensures SnapshotAt(readings, source) > 0 ==> exists v :: IsNewestOf(readings, source, v) && v.readAt == SnapshotAt(readings, source)
    ensures forall v :: IsNewestOf(readings, source, v) ==> v.readAt == SnapshotAt(readings, source)
  {
    if readings != [] {
      var front, last := readings[..|readings| - 1], readings[|readings| - 1];
      SnapshotIsNewest(front, source);
      assert readings == front + [last] && last in readings;
      if SnapshotAt(readings, source) > 0 {
        if SnapshotAt(front, source) > 0 && SnapshotAt(front, source) == SnapshotAt(readings, source) {
          var v :| IsNewestOf(front, source, v) && v.readAt == SnapshotAt(front, source);
          assert IsNewestOf(readings, source, v);
        } else {
          assert IsNewestOf(readings, source, last);
        }
      }
    }
  }

  /**
   * The snapshot leaves the window out: its source reported, did not name the
   * bucket, read no later window of it, and has not reported since.
   */
  ghost predicate LeftOut(table: seq<Reading>, readings: seq<Reading>, slot: Slot, w: Window) {
    exists v ::
      && IsNewestOf(readings, w.source, v) && w.readAt <= v.readAt
      && (forall r <- readings :: !(r.source == w.source && r.kind == slot.kind && r.bucket == slot.bucket))
      && (forall r <- table :: r.source == w.source ==> r.readAt <= v.readAt)
  }

  lemma {:induction false} UnmentionedIsLeftOut(table: seq<Reading>, readings: seq<Reading>, slot: Slot, w: Window)
    ensures LeftOut(table, readings, slot, w) <==>
            SnapshotAt(readings, w.source) != 0 && Unmentioned(table, readings, w.source, slot, w)
  {
    SnapshotIsNewest(readings, w.source);
    hide SnapshotAt;
    if LeftOut(table, readings, slot, w) {
      var v :| IsNewestOf(readings, w.source, v) && w.readAt <= v.readAt
               && (forall r <- readings :: !(r.source == w.source && r.kind == slot.kind && r.bucket == slot.bucket))
               && (forall r <- table :: r.source == w.source ==> r.readAt <= v.readAt);
      assert v.readAt == SnapshotAt(readings, w.source);
      forall k | 0 <= k < |table| ensures !(table[k].source == w.source && table[k].readAt > v.readAt) { assert table[k] in table; }
      forall k | 0 <= k < |readings|
        ensures !(readings[k].source == w.source && InBucket(readings[k], slot.kind, slot.bucket))
      {
        assert readings[k] in readings;
      }
    }
  }

  /** A full snapshot retires exactly the measured windows it leaves out; a partial one none, and estimates are left alone. */
  lemma {:induction false} SnapshotRetires(s: Store, readings: seq<Reading>, full: bool, a: Slot)
    requires a in Steps(s, readings, |readings|).windows
    ensures var stepped := Steps(s, readings, |readings|);
            var t := Ingested(s, readings, full);
            var w := stepped.windows[a];
            && t.table == stepped.table && a in t.windows
            && t.windows[a] == w.(retired := w.retired || (full && !w.source.Estimate? && LeftOut(stepped.table, readings, a, w)))
  {
    var stepped := Steps(s, readings, |readings|);
    UnmentionedIsLeftOut(stepped.table, readings, a, stepped.windows[a]);
    UnmentionedIsLeftOut(stepped.table, readings, a, stepped.windows[a].(retired := true));
    hide Steps, LeftOut, SnapshotAt;
  }

  // -------------------------------------------------- which readings are written

  /** The table holds a sample of the same bucket, time, source and phase. */
  ghost predicate Known(table: seq<Reading>, v: Reading) {
    exists r <- table :: r.kind == v.kind && r.bucket == v.bucket && r.readAt == v.readAt && r.source == v.source && r.phase == v.phase
  }

  /**
   * No measured reading of the bucket is later, or the harness's at the same time
   * as the daemon's, and the source has reported nothing later than all it
   * reports in the snapshot.
   */
  ghost predicate NewestKnown(table: seq<Reading>, readings: seq<Reading>, v: Reading) {
    && (forall r <- table :: r.kind == v.kind && r.bucket == v.bucket && !r.source.Estimate? ==>
          r.readAt < v.readAt || (r.readAt == v.readAt && (v.source.Harness? || !r.source.Harness?)))
    && (forall r <- table :: r.source == v.source && r.readAt > 0 ==> exists q <- readings :: q.source == v.source && r.readAt <= q.readAt)
  }

  lemma {:induction false} KnownIsStored(table: seq<Reading>, v: Reading)
    ensures Known(table, v) <==> Stored(table, v)
  {
    if Stored(table, v) {
      var k :| 0 <= k < |table| && SameSample(table[k], v);
      assert table[k] in table;
    }
  }

  lemma {:induction false} SourceReported(readings: seq<Reading>, source: Source, at: int)
    ensures at <= SnapshotAt(readings, source) <==> at <= 0 || exists q <- readings :: q.source == source && at <= q.readAt
  {
    SnapshotIsNewest(readings, source);
    hide SnapshotAt;
    if 0 < at <= SnapshotAt(readings, source) {
      var v :| IsNewestOf(readings, source, v) && v.readAt == SnapshotAt(readings, source);
      assert v in readings;
    }
  }

  lemma {:induction false} NewestIsNotSuperseded(table: seq<Reading>, readings: seq<Reading>, v: Reading)
    requires v in readings && !v.source.Estimate?
    ensures NewestKnown(table, readings, v) <==> !Superseded(table + [v], v, SnapshotAt(readings, v.source))
  {
    var at, all := SnapshotAt(readings, v.source), table + [v];
    SourceReported(readings, v.source, v.readAt);
    forall r | r in table
      ensures r.source == v.source && r.readAt > at <==>
              r.source == v.source && r.readAt > 0 && !exists q <- readings :: q.source == v.source && r.readAt <= q.readAt
    {
      SourceReported(readings, v.source, r.readAt);
    }
    assert all[|table|] == v && forall k :: 0 <= k < |table| ==> all[k] == table[k];
    assert forall k :: 0 <= k < |all| ==> all[k] in table || all[k] == v;
    hide SnapshotAt;
    if !Superseded(all, v, at) {
      forall r | r in table
        ensures !Outranks(r, v) && !(r.source == v.source && r.readAt > at)
      {
        var k :| 0 <= k < |table| && table[k] == r;
        assert all[k] == r;
      }
    }
  }

  /**
   * Every reading of a snapshot is stored unless its sample is known; it is
   * written, and its bucket's live window shows it, exactly when it is a stored
   * measurement and the newest known; otherwise no window changes.
   */
  lemma {:induction false} NewestIsWritten(s: Store, readings: seq<Reading>, n: nat)
    requires n < |readings|
    ensures var v, before, after := readings[n], Steps(s, readings, n), Steps(s, readings, n + 1);
            var slot := Slot(v.kind, v.bucket, v.resetsAt);
            && after.table == (if Known(before.table, v) then before.table else before.table + [v])
            && (if !Known(before.table, v) && !v.source.Estimate? && NewestKnown(before.table, readings, v)
                then Live(after, slot) && Shows(after.windows[slot], slot, v)
                else after.windows == before.windows)
  {
    var v, before := readings[n], Steps(s, readings, n);
    var at := SnapshotAt(readings, v.source);
    assert Steps(s, readings, n + 1) == Step(before, v, at);
    KnownIsStored(before.table, v);
    if !v.source.Estimate? { NewestIsNotSuperseded(before.table, readings, v); }
    hide Steps, Known, Stored, Superseded, NewestKnown, SnapshotAt;
    if Writes(before, v, at) { WrittenWindows(before, v, at); }
    hide Shows, Written;
  }

  // --------------------------------------------------------------- whole runs

  datatype Snapshot = Snapshot(readings: seq<Reading>, full: bool)

  function Run(s: Store, snapshots: seq<Snapshot>): Store
    decreases |snapshots|
  {
    if snapshots == [] then s else Run(Ingested(s, snapshots[0].readings, snapshots[0].full), snapshots[1..])
  }

  /** Over any sequence of snapshots each bucket has at most one unretired measured window, and nothing moves back. */
  lemma {:induction false} RunsStaySound(s: Store, snapshots: seq<Snapshot>)
    requires Sound(s)
    ensures Sound(Run(s, snapshots)) && Forward(s, Run(s, snapshots))
    decreases |snapshots|
  {
    hide Sound, Forward, Ingested;
    if snapshots == [] {
      ForwardReflexive(s);
    } else {
      var t := Ingested(s, snapshots[0].readings, snapshots[0].full);
      IngestKeepsSound(s, snapshots[0].readings, snapshots[0].full);
      RunsStaySound(t, snapshots[1..]);
      ForwardChains(s, t, Run(s, snapshots));
    }
  }

  /** The live window of a bucket is never read earlier than the live one before it. */
  lemma {:induction false} ReadAtNeverMovesBack(s: Store, snapshots: seq<Snapshot>, a: Slot, b: Slot)
    requires Sound(s) && Live(s, a) && Live(Run(s, snapshots), b) && SameBucket(a, b)
    ensures Run(s, snapshots).windows[b].readAt >= s.windows[a].readAt
  {
    RunsStaySound(s, snapshots);
    hide Run;
  }

  // ------------------------------------------------------------------ replay

  lemma {:induction false} StepStores(s: Store, v: Reading, snapshotAt: int)
    ensures s.table <= Step(s, v, snapshotAt).table && Stored(Step(s, v, snapshotAt).table, v)
  {
    if !Stored(s.table, v) { assert (s.table + [v])[|s.table|] == v; }
    hide Written, Writes;
  }

  lemma {:induction false} StoredStays(a: seq<Reading>, b: seq<Reading>, v: Reading)
    requires a <= b && Stored(a, v)
    ensures Stored(b, v)
  {
    hide SameSample;
    var k :| 0 <= k < |a| && SameSample(a[k], v);
    assert b[k] == a[k];
  }

  lemma {:induction false} StepsStore(s: Store, readings: seq<Reading>, n: nat)
    requires n <= |readings|
    ensures s.table <= Steps(s, readings, n).table
    ensures forall i :: 0 <= i < n ==> Stored(Steps(s, readings, n).table, readings[i])
  {
    hide Step, Stored, SnapshotAt;
    if n > 0 {
      StepsStore(s, readings, n - 1);
      var before := Steps(s, readings, n - 1);
      StepStores(before, readings[n - 1], SnapshotAt(readings, readings[n - 1].source));
      forall i | 0 <= i < n - 1 ensures Stored(Steps(s, readings, n).table, readings[i]) {
        StoredStays(before.table, Steps(s, readings, n).table, readings[i]);
      }
    }
  }

  lemma {:induction false} StoredStepsAreIdle(s: Store, readings: seq<Reading>, n: nat)
    requires n <= |readings| && forall i :: 0 <= i < n ==> Stored(s.table, readings[i])
    ensures Steps(s, readings, n) == s
  {
    hide Stored, SnapshotAt, Written, Writes;
    if n > 0 { StoredStepsAreIdle(s, readings, n - 1); }
  }

  /** Retiring one source twice, with the other in between, is retiring both once. */
  lemma {:induction false} RetireAgain(s: Store, readings: seq<Reading>)
    ensures var t := RetireUnmentioned(RetireUnmentioned(s, readings, Harness), readings, Agentd);
            RetireUnmentioned(RetireUnmentioned(t, readings, Harness), readings, Agentd) == t
  {
    var h := RetireUnmentioned(s, readings, Harness);
    var t := RetireUnmentioned(h, readings, Agentd);
    RetiredStay(s, h, t, readings, Harness);
    assert RetireUnmentioned(t, readings, Harness) == t;
    RetiredStay(h, t, t, readings, Agentd);
    hide RetireUnmentioned;
  }

  lemma {:induction false} RetiredStay(s: Store, h: Store, t: Store, readings: seq<Reading>, source: Source)
    requires h == RetireUnmentioned(s, readings, source)
    requires t.table == h.table && t.windows.Keys == h.windows.Keys
    requires forall slot <- h.windows :: t.windows[slot] == h.windows[slot] || t.windows[slot] == h.windows[slot].(retired := true)
    ensures RetireUnmentioned(t, readings, source) == t
  {
    forall slot | slot in t.windows && Unmentioned(t.table, readings, source, slot, t.windows[slot])
      ensures t.windows[slot].retired || SnapshotAt(readings, source) == 0
    {
      assert Unmentioned(s.table, readings, source, slot, s.windows[slot])
             <==> Unmentioned(t.table, readings, source, slot, t.windows[slot]);
      hide SnapshotAt;
    }
    hide Unmentioned, SnapshotAt;
  }

  /** An immediate replay of a snapshot changes nothing at all. */
  lemma {:induction false} ReplayChangesNothing(s: Store, readings: seq<Reading>, full: bool)
    ensures Ingested(Ingested(s, readings, full), readings, full) == Ingested(s, readings, full)
  {
    var a := Steps(s, readings, |readings|);
    var t := Ingested(s, readings, full);
    StepsStore(s, readings, |readings|);
    assert t.table == a.table by { hide Unmentioned, SnapshotAt, Steps; }
    StoredStepsAreIdle(t, readings, |readings|);
    RetireAgain(a, readings);
    hide Steps, RetireUnmentioned, Stored;
  }

  // ------------------------------------------------------ the authority flag

  /** The flag a bucket should show: its newest explicit authority, or allowed when there never was one. */
  function Flag(s: Store, slot: Slot): bool { Authority(s.table, slot.kind, slot.bucket).GetOr(true) }

  /**
   * Every written window shows the newest explicit authority known when it is
   * written: the first one by time, then harness, then denial; a reading
   * without authority changes nothing, and across resets.
   */
  lemma {:induction false} WrittenFlagIsNewest(s: Store, v: Reading, snapshotAt: int)
    requires Writes(s, v, snapshotAt)
    ensures var t := Step(s, v, snapshotAt);
            var slot := Slot(v.kind, v.bucket, v.resetsAt);
            && t.windows[slot].allowed == Flag(t, slot)
            && ((forall r <- t.table :: !Explicit(r, v.kind, v.bucket)) ==> t.windows[slot].allowed)
            && (forall best <- t.table ::
                  Explicit(best, v.kind, v.bucket) && (forall r <- t.table :: Explicit(r, v.kind, v.bucket) ==> !Before(r, best)) ==>
                    t.windows[slot].allowed == best.authority.value)
  {
    var t := Step(s, v, snapshotAt);
    NewestExplicitIsFirst(t.table, v.kind, v.bucket);
    var slot := Slot(v.kind, v.bucket, v.resetsAt);
    assert t.table == s.table + [v] && t.windows[slot].allowed == Flag(t, slot) by { hide Authority, Stored, Superseded, Ceil; }
    hide NewestExplicit, RetireForReading, Writes, Ceil, Step;
    forall best | best in t.table && Explicit(best, v.kind, v.bucket)
                  && (forall r <- t.table :: Explicit(r, v.kind, v.bucket) ==> !Before(r, best))
      ensures Authority(t.table, v.kind, v.bucket) == best.authority
    {
      var first := NewestExplicit(t.table, v.kind, v.bucket).value;
      TiesAgree(best, first);
      hide Explicit, Before;
    }
    hide Authority, Explicit, Before;
  }

  /** Readings neither of which goes before the other carry the same authority. */
  lemma {:induction false} TiesAgree(a: Reading, b: Reading)
    requires a.authority.Some? && b.authority.Some? && !Before(a, b) && !Before(b, a)
    ensures a.authority == b.authority
  {}

  /** Every live window shows the flag of its bucket. */
  ghost predicate FlagsHold(s: Store) {
    forall a :: Live(s, a) ==> s.windows[a].allowed == Flag(s, a)
  }

  /**
   * A late authority: an explicit authority that becomes the newest of its
   * bucket, in a reading that is not written because a later reading without
   * authority drives the live window, which shows the opposite.
   */
  ghost predicate LateAuthority(s: Store, v: Reading, snapshotAt: int) {
    && !Stored(s.table, v) && !Writes(s, v, snapshotAt) && Explicit(v, v.kind, v.bucket)
    && (forall r <- s.table :: Explicit(r, v.kind, v.bucket) ==> Before(v, r))
    && exists a :: Live(s, a) && a.kind == v.kind && a.bucket == v.bucket && s.windows[a].allowed != v.authority.value
  }

  lemma {:induction false} OtherBuckets(table: seq<Reading>, v: Reading, kind: string, bucket: string)
    requires !Explicit(v, kind, bucket)
    ensures Authority(table + [v], kind, bucket) == Authority(table, kind, bucket)
  {
    assert (table + [v])[..|table + [v]| - 1] == table;
    hide Explicit, Before;
  }

  lemma {:induction false} OneMoreExplicit(table: seq<Reading>, v: Reading)
    requires Explicit(v, v.kind, v.bucket)
    ensures Authority(table + [v], v.kind, v.bucket) ==
            if forall r <- table :: Explicit(r, v.kind, v.bucket) ==> Before(v, r) then v.authority
            else Authority(table, v.kind, v.bucket)
  {
    assert (table + [v])[..|table + [v]| - 1] == table;
    NewestExplicitIsFirst(table, v.kind, v.bucket);
    var best := NewestExplicit(table, v.kind, v.bucket);
    if best.Some? && Before(v, best.value) {
      forall r | r in table && Explicit(r, v.kind, v.bucket) ensures Before(v, r) { BeforeChains(v, best.value, r); }
    }
    hide Explicit, Before;
  }

  lemma {:induction false} BeforeChains(v: Reading, best: Reading, r: Reading)
    requires Before(v, best) && !Before(r, best) && v.authority.Some? && best.authority.Some? && r.authority.Some?
    ensures Before(v, r)
  {}

  /** Exactly the late authorities leave a live window showing something else than its bucket's newest authority. */
  lemma {:induction false} FlagsHoldUnlessLate(s: Store, v: Reading, snapshotAt: int)
    requires Sound(s) && FlagsHold(s)
    ensures FlagsHold(Step(s, v, snapshotAt)) <==> !LateAuthority(s, v, snapshotAt)
  {
    var t := Step(s, v, snapshotAt);
    if Stored(s.table, v) {
      hide Stored, Writes;
    } else if Writes(s, v, snapshotAt) {
      WrittenWindows(s, v, snapshotAt);
      WrittenFlagIsNewest(s, v, snapshotAt);
      var slot := Slot(v.kind, v.bucket, v.resetsAt);
      forall a | Live(t, a)
        ensures t.windows[a].allowed == Flag(t, a)
      {
        if a != slot {
          assert !SameBucket(a, slot) && Live(s, a);
          OtherBuckets(s.table, v, a.kind, a.bucket);
          UntouchedWindow(s, v, snapshotAt, a);
        }
      }
      hide Step, Writes, Live, Flag, Sound, Stored;
    } else {
      forall a | Live(s, a)
        ensures Flag(t, a) == if a.kind == v.kind && a.bucket == v.bucket && Explicit(v, v.kind, v.bucket)
                                && (forall r <- s.table :: Explicit(r, v.kind, v.bucket) ==> Before(v, r))
                              then v.authority.value else Flag(s, a)
      {
        if Explicit(v, a.kind, a.bucket) { OneMoreExplicit(s.table, v); } else { OtherBuckets(s.table, v, a.kind, a.bucket); }
        hide Authority, Before, Sound, FlagsHold, Writes, Stored;
      }
      assert forall a :: (Live(t, a) <==> Live(s, a)) && (Live(s, a) ==> t.windows[a] == s.windows[a]);
      hide Step, Writes, Stored, Flag, Sound, Explicit, Before, Live;
    }
  }

  lemma {:induction false} UntouchedWindow(s: Store, v: Reading, snapshotAt: int, a: Slot)
    requires Writes(s, v, snapshotAt) && Live(s, a) && !(a.kind == v.kind && a.bucket == v.bucket)
    ensures Step(s, v, snapshotAt).windows[a] == s.windows[a]
  {
    hide Writes, Authority, Ceil;
  }

  /** Such a late denial does not reach the live window: the next run may still be admitted on it. */
  lemma {:induction false} LateDenialIsNotShown()
    ensures exists s: Store, v: Reading, a: Slot, at: int ::
              && Sound(s) && FlagsHold(s) && Live(s, a) && v.authority == Some(false)
              && Step(s, v, at).windows == s.windows && s.windows[a].allowed && !Flag(Step(s, v, at), a)
  {
    var r := Reading("5h", "", 300, 10.0, 300 * MINUTE, 20 * MINUTE, Agentd, None, "");
    var v := Reading("5h", "", 300, 10.0, 300 * MINUTE, 10 * MINUTE, Agentd, Some(false), "");
    var a := Slot("5h", "", 300 * MINUTE);
    var s := Store([r], map[a := Window(0, 10, 20 * MINUTE, true, false, Agentd, None)]);
    assert s.table[0] == r && Shows(s.windows[a], a, r) && Backed(s.table, a, s.windows[a]);
    assert NewestExplicit([r][..0], "5h", "").None? && NewestExplicit([r], "5h", "").None?;
    assert Sound(s) && FlagsHold(s);
    var table := s.table + [v];
    assert table[0] == r && Outranks(table[0], v) && Superseded(table, v, 10 * MINUTE);
    assert !SameSample(s.table[0], v) && !Stored(s.table, v);
    OneMoreExplicit(s.table, v);
    assert !Explicit(r, "5h", "");
    var t := Step(s, v, 10 * MINUTE);
    assert t == Store(table, s.windows) && !Flag(t, a) && Live(s, a) && s.windows[a].allowed;
  }

  // -------------------------------------------------------- denials survive

  /** The bucket is denied: its newest authority says so and so does its live window, if any. */
  ghost predicate DeniedBucket(s: Store, kind: string, bucket: string) {
    && Authority(s.table, kind, bucket) == Some(false)
    && forall a :: Live(s, a) && a.kind == kind && a.bucket == bucket ==> !s.windows[a].allowed
  }

  /** Denied, by an authority that `d` does not go before. */
  ghost predicate DeniedSince(s: Store, kind: string, bucket: string, d: Reading) {
    && DeniedBucket(s, kind, bucket)
    && d.authority.Some? && !Before(d, NewestExplicit(s.table, kind, bucket).value)
  }

  /** What lifts a denial: an explicit permit of the bucket that goes before it. */
  predicate Lifts(v: Reading, d: Reading, kind: string, bucket: string) {
    Explicit(v, kind, bucket) && Permits(v) && Before(v, d)
  }

  lemma {:induction false} NewestWith(table: seq<Reading>, v: Reading, kind: string, bucket: string)
    ensures var best := NewestExplicit(table, kind, bucket);
            NewestExplicit(table + [v], kind, bucket) ==
            if Explicit(v, kind, bucket) && (best.None? || Before(v, best.value)) then Some(v) else best
  {
    assert (table + [v])[..|table + [v]| - 1] == table;
    hide Explicit, Before;
  }

  /** One more reading keeps the newest authority a denial, unless it lifts it. */
  lemma {:induction false} NewestStaysDenial(table: seq<Reading>, v: Reading, kind: string, bucket: string, d: Reading)
    requires Authority(table, kind, bucket) == Some(false) && d.authority.Some?
    requires !Before(d, NewestExplicit(table, kind, bucket).value) && !Lifts(v, d, kind, bucket)
    ensures Authority(table + [v], kind, bucket) == Some(false)
    ensures !Before(d, NewestExplicit(table + [v], kind, bucket).value)
  {
    NewestWith(table, v, kind, bucket);
    var best := NewestExplicit(table, kind, bucket).value;
    if Explicit(v, kind, bucket) && Before(v, best) { BeforeChains(v, best, d); }
    hide NewestExplicit;
  }

  /** Live windows of a denied bucket stay denied while its newest authority is a denial. */
  lemma {:induction false} WindowsStayDenied(s: Store, v: Reading, snapshotAt: int, kind: string, bucket: string)
    requires DeniedBucket(s, kind, bucket) && Authority(Step(s, v, snapshotAt).table, kind, bucket) == Some(false)
    ensures DeniedBucket(Step(s, v, snapshotAt), kind, bucket)
  {
    var t := Step(s, v, snapshotAt);
    if Writes(s, v, snapshotAt) {
      WrittenWindows(s, v, snapshotAt);
      WrittenFlagIsNewest(s, v, snapshotAt);
      var slot := Slot(v.kind, v.bucket, v.resetsAt);
      forall a | Live(t, a) && a.kind == kind && a.bucket == bucket
        ensures !t.windows[a].allowed
      {
        if a != slot {
          assert !SameBucket(a, slot) && Live(s, a);
          UntouchedWindow(s, v, snapshotAt, a);
        }
      }
      hide Step, Writes, Live, Authority, Explicit, Before;
    } else {
      hide Authority, Stored, Writes, Explicit;
    }
  }

  lemma {:induction false} StepKeepsDenial(s: Store, v: Reading, snapshotAt: int, kind: string, bucket: string, d: Reading)
    requires DeniedSince(s, kind, bucket, d) && !Lifts(v, d, kind, bucket)
    ensures DeniedSince(Step(s, v, snapshotAt), kind, bucket, d)
  {
    NewestStaysDenial(s.table, v, kind, bucket, d);
    assert Step(s, v, snapshotAt).table == if Stored(s.table, v) then s.table else s.table + [v];
    WindowsStayDenied(s, v, snapshotAt, kind, bucket);
    hide Step, NewestExplicit, Before, Lifts, Stored;
  }

  /** Exactly a permit that goes before the denial lifts it; one already stored does nothing. */
  lemma {:induction false} DenialLiftedExactly(s: Store, v: Reading, snapshotAt: int, kind: string, bucket: string)
    requires DeniedBucket(s, kind, bucket)
    ensures var d := NewestExplicit(s.table, kind, bucket).value;
            DeniedBucket(Step(s, v, snapshotAt), kind, bucket) <==> Stored(s.table, v) || !Lifts(v, d, kind, bucket)
  {
    var d := NewestExplicit(s.table, kind, bucket).value;
    NewestExplicitIsFirst(s.table, kind, bucket);
    assert Step(s, v, snapshotAt).table == if Stored(s.table, v) then s.table else s.table + [v];
    if Stored(s.table, v) {
    } else if Lifts(v, d, kind, bucket) {
      NewestWith(s.table, v, kind, bucket);
      hide Step, NewestExplicit, Before, Stored;
    } else {
      hide NewestExplicit, Step, Stored, Lifts;
      StepKeepsDenial(s, v, snapshotAt, kind, bucket, d);
    }
  }

  lemma {:induction false} StepsKeepDenial(s: Store, readings: seq<Reading>, n: nat, kind: string, bucket: string, d: Reading)
    requires n <= |readings| && DeniedSince(s, kind, bucket, d)
    requires forall v <- readings :: !Lifts(v, d, kind, bucket)
    ensures DeniedSince(Steps(s, readings, n), kind, bucket, d)
  {
    hide DeniedSince, Step, SnapshotAt, Lifts;
    if n > 0 {
      StepsKeepDenial(s, readings, n - 1, kind, bucket, d);
      StepKeepsDenial(Steps(s, readings, n - 1), readings[n - 1], SnapshotAt(readings, readings[n - 1].source), kind, bucket, d);
    }
  }

  lemma {:induction false} RetireKeepsDenial(s: Store, readings: seq<Reading>, source: Source, kind: string, bucket: string, d: Reading)
    requires DeniedSince(s, kind, bucket, d)
    ensures DeniedSince(RetireUnmentioned(s, readings, source), kind, bucket, d)
  {
    var t := RetireUnmentioned(s, readings, source);
    assert forall a :: Live(t, a) ==> Live(s, a) && t.windows[a].allowed == s.windows[a].allowed by { hide Unmentioned, SnapshotAt; }
    assert t.table == s.table;
    hide RetireUnmentioned, Live, Authority, Before;
  }

  lemma {:induction false} RunKeepsDenial(s: Store, snapshots: seq<Snapshot>, kind: string, bucket: string, d: Reading)
    requires DeniedSince(s, kind, bucket, d)
    requires forall n <- snapshots, v <- n.readings :: !Lifts(v, d, kind, bucket)
    ensures DeniedSince(Run(s, snapshots), kind, bucket, d)
    decreases |snapshots|
  {
    hide DeniedSince, Steps, RetireUnmentioned, Lifts;
    if snapshots != [] {
      var n := snapshots[0];
      assert n in snapshots && forall m <- snapshots[1..] :: m in snapshots;
      var a := Steps(s, n.readings, |n.readings|);
      StepsKeepDenial(s, n.readings, |n.readings|, kind, bucket, d);
      RetireKeepsDenial(a, n.readings, Harness, kind, bucket, d);
      RetireKeepsDenial(RetireUnmentioned(a, n.readings, Harness), n.readings, Agentd, kind, bucket, d);
      RunKeepsDenial(Ingested(s, n.readings, n.full), snapshots[1..], kind, bucket, d);
    }
  }

  /**
   * A vendor denial survives every run of snapshots in which no explicit permit
   * goes before it: readings without authority, stale permits and further
   * denials do not lift it, across resets and retirements.
   */
  lemma {:induction false} DenialSurvives(s: Store, snapshots: seq<Snapshot>, kind: string, bucket: string)
    requires DeniedBucket(s, kind, bucket)
    requires var d := NewestExplicit(s.table, kind, bucket).value;
             forall n <- snapshots, v <- n.readings :: !Lifts(v, d, kind, bucket)
    ensures DeniedBucket(Run(s, snapshots), kind, bucket)
  {
    NewestExplicitIsFirst(s.table, kind, bucket);
    RunKeepsDenial(s, snapshots, kind, bucket, NewestExplicit(s.table, kind, bucket).value);
    hide Run, NewestExplicit, Lifts;
  }

  // --------------------------------------------------- from the empty store

  const EMPTY_STORE: Store := Store([], map[])

  lemma {:induction false} EmptyIsSound()
    ensures Sound(EMPTY_STORE)
  {}

  /** So in every reachable store no bucket has two live windows, and each measured one shows a stored reading. */
  lemma {:induction false} ReachableStoresAreSound(snapshots: seq<Snapshot>, a: Slot, b: Slot)
    ensures var s := Run(EMPTY_STORE, snapshots);
            && (Live(s, a) && Live(s, b) && SameBucket(a, b) ==> a == b)
            && (Measured(s, a) ==> Backed(s.table, a, s.windows[a]))
  {
    EmptyIsSound();
    RunsStaySound(EMPTY_STORE, snapshots);
    hide Run, Backed, Live;
  }
}
