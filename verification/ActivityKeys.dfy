/**
 * The grouping of imported comments: the fold keys them by one text, the page
 * lookups by source and record. When the two readings of a log agree, and the
 * input on which they do not.
 */
module ActivityKeys {
  import opened Wrappers
  import opened ActivityEvents
  import opened ActivityComments
  import opened ActivityProjection
  import opened ActivityPointwise

  // ------------------------------------------------ the same log, other texts

  function WithText(e: Event, text: string): Event {
    if e.kind.ImportComment? then e.(payload := e.payload.(body := text)) else e
  }

  /** The log with the imported comments saying something else. */
  function Retold(log: seq<Event>, texts: nat -> string): (r: seq<Event>)
    ensures |r| == |log|
  {
    seq(|log|, i requires 0 <= i < |log| => WithText(log[i], texts(log[i].id)))
  }

  /** The fold and the lookups show the same, whatever the imported comments say. */
  ghost predicate AgreeForAllTexts(log: seq<Event>) {
    forall texts: nat -> string :: Collected(Retold(log, texts)) == PointItems(Retold(log, texts))
  }

  lemma {:induction false} RetoldMembers(log: seq<Event>, texts: nat -> string)
    ensures forall e <- log :: WithText(e, texts(e.id)) in Retold(log, texts)
    ensures forall x <- Retold(log, texts) :: exists e <- log :: x == WithText(e, texts(e.id))
  {
    var r := Retold(log, texts);
    forall e | e in log
      ensures WithText(e, texts(e.id)) in r
    {
      var i :| 0 <= i < |log| && log[i] == e;
      assert r[i] == WithText(e, texts(e.id));
    }
    forall x | x in r
      ensures exists e <- log :: x == WithText(e, texts(e.id))
    {
      var i :| 0 <= i < |r| && r[i] == x;
      assert log[i] in log;
    }
  }

  /** Alike in everything the lifecycle speaks of. */
  ghost predicate SameShape(log: seq<Event>, r: seq<Event>) {
    && |r| == |log|
    && forall i :: 0 <= i < |log| ==>
         && r[i].id == log[i].id && r[i].at == log[i].at && r[i].kind == log[i].kind && r[i].actor == log[i].actor
         && r[i].payload.commentId == log[i].payload.commentId && r[i].overrideReason == log[i].overrideReason
  }

  lemma {:induction false} ShapeKeepsRevisions(log: seq<Event>, r: seq<Event>)
    requires SameShape(log, r) && RevisionsFollow(log) && DeletionsLast(log)
    ensures RevisionsFollow(r) && DeletionsLast(r)
  {
    forall j | 0 <= j < |r| && IsRevision(r[j])
      ensures exists i :: 0 <= i < |r| && RevisionOf(r, i, j)
    {
      assert IsRevision(log[j]);
      var i :| 0 <= i < |log| && RevisionOf(log, i, j);
      assert RevisionOf(r, i, j);
    }
    forall i, j | 0 <= i < j < |r| && r[i].kind.CommentDeleted? && IsRevision(r[j])
      ensures r[i].payload.commentId != r[j].payload.commentId
    {
      assert IsRevision(log[j]);
    }
  }

  lemma {:induction false} ShapeKeepsLifecycle(log: seq<Event>, r: seq<Event>)
    requires SameShape(log, r) && Lifecycle(log)
    ensures Lifecycle(r)
  {
    ShapeKeepsRevisions(log, r);
    hide RevisionsFollow, DeletionsLast, MayOverride;
    forall x | x in r && x.overrideReason.Some?
      ensures MayOverride(x.kind)
    {
      var i :| 0 <= i < |r| && r[i] == x;
      assert log[i] in log;
    }
  }

  lemma {:induction false} RetoldShape(log: seq<Event>, texts: nat -> string)
    ensures SameShape(log, Retold(log, texts))
  {
    var r := Retold(log, texts);
    assert forall i :: 0 <= i < |log| ==> r[i] == WithText(log[i], texts(log[i].id));
  }

  lemma {:induction false} RetoldLifecycle(log: seq<Event>, texts: nat -> string)
    requires Lifecycle(log)
    ensures Lifecycle(Retold(log, texts))
  {
    RetoldShape(log, texts);
    hide Lifecycle, Retold, SameShape;
    ShapeKeepsLifecycle(log, Retold(log, texts));
  }

  lemma {:induction false} SameKeys(e: Event, text: string)
    ensures FoldKey(WithText(e, text)) == FoldKey(e) && SqlKey(WithText(e, text)) == SqlKey(e)
    ensures WithText(e, text).kind == e.kind && WithText(e, text).id == e.id && WithText(e, text).at == e.at
  {
    hide Digits;
  }

  lemma {:induction false} RetoldKeysAgree(log: seq<Event>, texts: nat -> string)
    requires KeysAgree(log)
    ensures KeysAgree(Retold(log, texts))
  {
    hide FoldKey, SqlKey, Retold, WithText;
    var r := Retold(log, texts);
    RetoldMembers(log, texts);
    forall x, y | x in r && y in r && x.kind.ImportComment? && y.kind.ImportComment?
      ensures FoldKey(x) == FoldKey(y) <==> SqlKey(x) == SqlKey(y)
    {
      var e :| e in log && x == WithText(e, texts(e.id));
      var f :| f in log && y == WithText(f, texts(f.id));
      SameKeys(e, texts(e.id));
      SameKeys(f, texts(f.id));
    }
  }

  // --------------------------------------------------------- keys as texts

  lemma {:induction false} DigitsAreDigits(n: nat)
    ensures Digits(n) != [] && forall c <- Digits(n) :: '0' <= c <= '9'
  {
    if n >= 10 { DigitsAreDigits(n / 10); }
  }

  /** The last digit apart. */
  lemma {:induction false} LastDigit(n: nat)
    ensures Digits(n) != [] && Digits(n)[|Digits(n)| - 1] == '0' + (n % 10) as char
    ensures Digits(n)[..|Digits(n)| - 1] == if n < 10 then [] else Digits(n / 10)
  {}

  lemma {:induction false} DigitsDiffer(m: nat, n: nat)
    requires Digits(m) == Digits(n)
    ensures m == n
  {
    hide Digits;
    LastDigit(m);
    LastDigit(n);
    DigitsAreDigits(m / 10);
    DigitsAreDigits(n / 10);
    if m >= 10 && n >= 10 { DigitsDiffer(m / 10, n / 10); }
  }

  lemma {:induction false} HasColon(source: string, record: string)
    ensures ':' in source + ":" + record
  {
    assert (source + ":" + record)[|source|] == ':';
  }

  /** An import without a record id is alone in the fold. */
  lemma {:induction false} UnnamedIsAlone(x: Event, y: Event)
    requires x.payload.recordId == "" && FoldKey(x) == FoldKey(y)
    ensures x.id == y.id
  {
    DigitsAreDigits(x.id);
    HasColon(y.payload.source, y.payload.recordId);
    if y.payload.recordId == "" { DigitsDiffer(x.id, y.id); }
    hide Digits;
  }

  /** Only an import without a record id can share its lookup key with one the fold keeps apart. */
  lemma {:induction false} OneIsUnnamed(x: Event, y: Event)
    requires SqlKey(x) == SqlKey(y) && FoldKey(x) != FoldKey(y)
    ensures (x.payload.recordId == "" && y.payload.recordId != "") || (y.payload.recordId == "" && x.payload.recordId != "")
  {
    hide Digits;
    if x.payload.recordId == "" && y.payload.recordId == "" { DigitsDiffer(x.id, y.id); }
  }

  // ----------------------------------------------- disagreeing keys are seen

  lemma {:induction false} ItemNamesEvent(log: seq<Event>, e: Event, same: Event -> bool)
    ensures ItemBy(log, e, same).Some? ==> ItemBy(log, e, same).value.id == e.id
  {}

  /** A difference at one event is a difference of the whole readings. */
  lemma {:induction false} DifferenceShows(log: seq<Event>, e: Event)
    requires Lifecycle(log) && e in log && FoldItem(log, e) != PointItem(log, e)
    ensures Collected(log) != PointItems(log)
  {
    FoldIsGrouped(log);
    hide Collected, ItemBy, Lifecycle, SameFoldKey, SameRecord;
    assert IdsAscending(log) by { LifecycleAscends(log); }
    ItemNamesEvent(log, e, SameFoldKey(e));
    ItemNamesEvent(log, e, SameRecord(e));
    forall x | x in log && x.id == e.id
      ensures x == e
    {
      SameIdSameEvent(log, x, e);
    }
    if FoldItem(log, e).Some? {
      var i := FoldItem(log, e).value;
      assert i in FoldItems(log);
      if i in PointItems(log) {
        var x :| x in log && PointItem(log, x) == Some(i);
        ItemNamesEvent(log, x, SameRecord(x));
      }
    } else {
      var i := PointItem(log, e).value;
      assert i in PointItems(log);
      if i in FoldItems(log) {
        var x :| x in log && FoldItem(log, x) == Some(i);
        ItemNamesEvent(log, x, SameFoldKey(x));
      }
    }
  }

  lemma {:induction false} LifecycleAscends(log: seq<Event>)
    requires Lifecycle(log)
    ensures IdsAscending(log)
    ensures forall e <- log :: e.kind.ImportComment? ==> e.overrideReason.None?
  {
    hide RevisionsFollow, DeletionsLast, IdsAscending;
  }

  /** What a reading shows of an import. */
  lemma {:induction false} ImportRead(log: seq<Event>, e: Event, same: Event -> bool)
    requires Lifecycle(log) && e in log && e.kind.ImportComment?
    ensures ItemBy(log, e, same) ==
            if IsFirst(log, e, same) then Some(ImportedItem(e.id, e.at, LastWhere(log, same).GetOr(e))) else None
  {
    LifecycleAscends(log);
    hide Lifecycle, IsFirst, LastWhere;
  }

  /** The lookups join an unnamed import with another; told apart by its text, it shows. */
  lemma {:induction false} JoinedShows(log: seq<Event>, x: Event, y: Event)
    requires Lifecycle(log) && x in log && y in log && x.kind.ImportComment? && y.kind.ImportComment?
    requires x.payload.recordId == "" && SqlKey(x) == SqlKey(y) && x.id != y.id
    requires forall e <- log :: e.kind.ImportComment? && e.id != x.id ==> e.payload.body != x.payload.body
    ensures Collected(log) != PointItems(log)
  {
    LifecycleAscends(log);
    hide Lifecycle, FoldKey, SqlKey, ItemBy;
    var fold, sql := SameFoldKey(x), SameRecord(x);
    ImportRead(log, x, fold);
    ImportRead(log, x, sql);
    forall e | e in log && fold(e)
      ensures e == x
    {
      UnnamedIsAlone(x, e);
      SameIdSameEvent(log, e, x);
    }
    assert fold(x) && LastWhere(log, fold) == Some(x);
    LastWhereIsNewest(log, sql);
    assert sql(y) && sql(x);
    var last := LastWhere(log, sql).value;
    if last.id == x.id { assert y.id < x.id; }
    DifferenceShows(log, x);
  }

  lemma {:induction false} FirstOfRecord(log: seq<Event>, n: nat, e: Event) returns (g: Event)
    requires n <= |log| && IdsAscending(log) && exists i :: 0 <= i < n && SameRecord(e)(log[i])
    ensures g in log && SameRecord(e)(g) && forall i :: 0 <= i < n && SameRecord(e)(log[i]) ==> log[i].id >= g.id
  {
    hide SqlKey;
    if exists i :: 0 <= i < n - 1 && SameRecord(e)(log[i]) {
      g := FirstOfRecord(log, n - 1, e);
      var i :| 0 <= i < |log| && log[i] == g;
      if SameRecord(e)(log[n - 1]) {
        var k :| 0 <= k < n - 1 && SameRecord(e)(log[k]);
        assert log[n - 1].id > log[k].id;
      }
    } else {
      g := log[n - 1];
    }
  }

  /** Of two records the fold joins, the later one is a comment of its own for the lookups only. */
  lemma {:induction false} SplitShows(log: seq<Event>, x: Event, y: Event)
    requires Lifecycle(log) && x in log && y in log && x.kind.ImportComment? && y.kind.ImportComment?
    requires FoldKey(x) == FoldKey(y) && SqlKey(x) != SqlKey(y)
    requires forall e <- log, f <- log :: e.kind.ImportComment? && f.kind.ImportComment? && SqlKey(e) == SqlKey(f) ==> FoldKey(e) == FoldKey(f)
    ensures Collected(log) != PointItems(log)
  {
    LifecycleAscends(log);
    hide Lifecycle, FoldKey, SqlKey, ItemBy;
    var g := RecordStart(log, x);
    var h := RecordStart(log, y);
    assert FoldKey(g) == FoldKey(h) && SqlKey(g) != SqlKey(h);
    if g.id == h.id { SameIdSameEvent(log, g, h); }
    if g.id < h.id { LaterShows(log, g, h); } else { LaterShows(log, h, g); }
  }

  lemma {:induction false} RecordStart(log: seq<Event>, x: Event) returns (g: Event)
    requires IdsAscending(log) && x in log && x.kind.ImportComment?
    ensures g in log && SameRecord(x)(g) && IsFirstImport(log, g)
  {
    hide SqlKey;
    var i :| 0 <= i < |log| && log[i] == x;
    assert SameRecord(x)(log[i]);
    g := FirstOfRecord(log, |log|, x);
    forall f | f in log && SameRecord(g)(f)
      ensures f.id >= g.id
    {
      var k :| 0 <= k < |log| && log[k] == f;
      assert SameRecord(x)(log[k]);
    }
  }

  lemma {:induction false} LaterShows(log: seq<Event>, g: Event, h: Event)
    requires Lifecycle(log) && g in log && h in log && g.kind.ImportComment? && h.kind.ImportComment?
    requires g.id < h.id && FoldKey(g) == FoldKey(h) && IsFirstImport(log, h)
    ensures Collected(log) != PointItems(log)
  {
    hide Lifecycle, FoldKey, SqlKey, ItemBy, LastWhere;
    ImportRead(log, h, SameFoldKey(h));
    ImportRead(log, h, SameRecord(h));
    assert SameFoldKey(h)(g);
    DifferenceShows(log, h);
  }

  lemma {:induction false} JoinedTexts(log: seq<Event>, x: Event, y: Event) returns (texts: nat -> string)
    requires Lifecycle(log) && x in log && y in log && x.kind.ImportComment? && y.kind.ImportComment?
    requires x.payload.recordId == "" && SqlKey(x) == SqlKey(y) && FoldKey(x) != FoldKey(y)
    ensures Collected(Retold(log, texts)) != PointItems(Retold(log, texts))
  {
    LifecycleAscends(log);
    if x.id == y.id { SameIdSameEvent(log, x, y); }
    texts := (id: nat) => if id == x.id then "x" else "";
    RetoldLifecycle(log, texts);
    RetoldMembers(log, texts);
    SameKeys(x, texts(x.id));
    SameKeys(y, texts(y.id));
    hide Lifecycle, FoldKey, SqlKey, Collected, Retold;
    JoinedShows(Retold(log, texts), WithText(x, texts(x.id)), WithText(y, texts(y.id)));
  }

  lemma {:induction false} SplitTexts(log: seq<Event>, x: Event, y: Event) returns (texts: nat -> string)
    requires Lifecycle(log) && x in log && y in log && x.kind.ImportComment? && y.kind.ImportComment?
    requires FoldKey(x) == FoldKey(y) && SqlKey(x) != SqlKey(y)
    requires forall e <- log, f <- log :: e.kind.ImportComment? && f.kind.ImportComment? && SqlKey(e) == SqlKey(f) ==> FoldKey(e) == FoldKey(f)
    ensures Collected(Retold(log, texts)) != PointItems(Retold(log, texts))
  {
    texts := (id: nat) => "";
    var r := Retold(log, texts);
    RetoldLifecycle(log, texts);
    RetoldMembers(log, texts);
    SameKeys(x, texts(x.id));
    SameKeys(y, texts(y.id));
    hide Lifecycle, FoldKey, SqlKey, Collected, Retold, WithText;
    forall a, b | a in r && b in r && a.kind.ImportComment? && b.kind.ImportComment? && SqlKey(a) == SqlKey(b)
      ensures FoldKey(a) == FoldKey(b)
    {
      var e :| e in log && a == WithText(e, texts(e.id));
      var f :| f in log && b == WithText(f, texts(f.id));
      SameKeys(e, texts(e.id));
      SameKeys(f, texts(f.id));
    }
    SplitShows(r, WithText(x, texts(x.id)), WithText(y, texts(y.id)));
  }

  /** Keys that disagree are seen for some texts. */
  lemma {:induction false} DisagreementShows(log: seq<Event>) returns (texts: nat -> string)
    requires Lifecycle(log) && !KeysAgree(log)
    ensures Collected(Retold(log, texts)) != PointItems(Retold(log, texts))
  {
    hide Lifecycle, FoldKey, SqlKey, Collected, Retold;
    if e, f :| e in log && f in log && e.kind.ImportComment? && f.kind.ImportComment? && SqlKey(e) == SqlKey(f) && FoldKey(e) != FoldKey(f) {
      OneIsUnnamed(e, f);
      if e.payload.recordId == "" { texts := JoinedTexts(log, e, f); } else { texts := JoinedTexts(log, f, e); }
    } else {
      var e, f :| e in log && f in log && e.kind.ImportComment? && f.kind.ImportComment? && FoldKey(e) == FoldKey(f) && SqlKey(e) != SqlKey(f);
      texts := SplitTexts(log, e, f);
    }
  }

  /**
   * Exactly when the fold and the lookups agree: whatever the imported comments
   * say they show the same, if and only if both group the imports alike.
   */
  lemma {:induction false} KeysAgreeExactly(log: seq<Event>)
    requires Lifecycle(log)
    ensures KeysAgree(log) <==> AgreeForAllTexts(log)
  {
    hide Lifecycle, KeysAgree, Collected, Retold;
    if KeysAgree(log) {
      forall texts: nat -> string
        ensures Collected(Retold(log, texts)) == PointItems(Retold(log, texts))
      {
        RetoldLifecycle(log, texts);
        RetoldKeysAgree(log, texts);
        FoldIsPointwise(Retold(log, texts));
      }
    } else {
      var texts := DisagreementShows(log);
    }
  }

  // -------------------------------------------------------- a case of each kind

  /** A record named like an event number joins that event's comment for the lookups but not for the fold. */
  lemma {:induction false} KeyClash()
    ensures exists log: seq<Event> :: Lifecycle(log) && !KeysAgree(log) && Collected(log) != PointItems(log)
  {
    var a, b := ImportOf(1, ""), ImportOf(2, "1");
    var log := [a, b];
    assert FoldKey(a) == "1" && FoldKey(b) == ":1" && SqlKey(a) == SqlKey(b) by { assert Digits(1) == "1"; }
    assert Lifecycle(log);
    hide Lifecycle, FoldKey, SqlKey, Collected, ItemBy, LastWhere;
    ImportRead(log, b, SameFoldKey(b));
    ImportRead(log, b, SameRecord(b));
    assert SameRecord(b)(a) && a in log && b in log;
    DifferenceShows(log, b);
  }

  function ImportOf(id: nat, recordId: string): Event {
    Event(id, 7, ImportComment, "", NO_FIELDS, NO_FIELDS,
          Payload(0, "", "", recordId, "", None, None), None, "", "")
  }

  /** Keys agree whenever every imported comment carries a record id and no source contains a colon. */
  lemma {:induction false} ColonFreeSourcesAgree(log: seq<Event>)
    requires forall e <- log :: e.kind.ImportComment? ==> e.payload.recordId != "" && ':' !in e.payload.source
    ensures KeysAgree(log)
  {
    forall e, f | e in log && f in log && e.kind.ImportComment? && f.kind.ImportComment? && FoldKey(e) == FoldKey(f)
      ensures SqlKey(e) == SqlKey(f)
    {
      SplitAtColon(e.payload.source, e.payload.recordId, f.payload.source, f.payload.recordId);
    }
  }

  lemma {:induction false} SplitAtColon(a: string, x: string, b: string, y: string)
    requires ':' !in a && ':' !in b && a + ":" + x == b + ":" + y
    ensures a == b && x == y
  {
    var s := a + ":" + x;
    assert s[|a|] == ':' && s[|b|] == ':';
    assert forall k :: 0 <= k < |a| ==> s[k] == a[k];
    assert forall k :: 0 <= k < |b| ==> s[k] == b[k];
    assert |a| == |b|;
    assert s[..|a|] == a && s[..|b|] == b;
    assert s[|a| + 1..] == x && s[|b| + 1..] == y;
  }
}
