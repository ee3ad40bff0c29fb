/**
 * What the timeline says of each event of a reachable log: when an event has an
 * item at all, and its type, time, author, text and field changes, told from
 * the events themselves.
 */
module ActivityItems {
  import opened Wrappers
  import opened NewestFirst
  import opened ActivityEvents
  import opened ActivityComments
  import opened ActivityProjection
  import opened ActivityPointwise
  import opened ActivityPages
  import opened ActivityAgreement
  import opened ActivityKeys

  // --------------------------------------------------- changes of a snapshot

  /** A field that differs is reported once, from its old to its new value; one that does not is not. */
  predicate Reports(changes: seq<FieldChange>, n: FieldName, was: Option<string>, becomes: Option<string>) {
    if was == becomes then forall c <- changes :: c.field != n
    else FieldChange(n, was, becomes) in changes && forall c <- changes :: c.field == n ==> c == FieldChange(n, was, becomes)
  }

  function Rank(n: FieldName): nat {
    match n
    case Status => 0
    case Priority => 1
    case Assignee => 2
    case Title => 3
    case Parent => 4
    case Tags => 5
    case HumanCheck => 6
    case KindField => 7
  }

  predicate InFieldOrder(changes: seq<FieldChange>) {
    forall i, j :: 0 <= i < j < |changes| ==> Rank(changes[i].field) < Rank(changes[j].field)
  }

  /** The changes that lead from one snapshot to another. */
  predicate Describes(before: Fields, after: Fields, changes: seq<FieldChange>) {
    && Reports(changes, Status, before.status, after.status)
    && Reports(changes, Priority, before.priority, after.priority)
    && Reports(changes, Assignee, before.assignee, after.assignee)
    && Reports(changes, Title, before.title, after.title)
    && Reports(changes, Parent, before.parent, after.parent)
    && Reports(changes, Tags, before.tags, after.tags)
    && Reports(changes, HumanCheck, before.humanCheck, after.humanCheck)
    && (forall c <- changes :: c.field != KindField)
    && InFieldOrder(changes)
  }

  lemma {:induction false} DiffReports(before: Fields, after: Fields, names: seq<FieldName>, n: FieldName)
    requires forall i, j :: 0 <= i < j < |names| ==> names[i] != names[j]
    ensures if n in names then Reports(DiffFrom(before, after, names), n, Get(before, n), Get(after, n))
            else forall c <- DiffFrom(before, after, names) :: c.field != n
    decreases |names|
  {
    hide Get;
    if names != [] {
      assert names == [names[0]] + names[1..];
      DiffReports(before, after, names[1..], n);
    }
  }

  lemma {:induction false} DiffInOrder(before: Fields, after: Fields, names: seq<FieldName>)
    requires forall i, j :: 0 <= i < j < |names| ==> Rank(names[i]) < Rank(names[j])
    ensures InFieldOrder(DiffFrom(before, after, names))
    ensures forall c <- DiffFrom(before, after, names) :: c.field in names
    decreases |names|
  {
    hide Get, Rank;
    if names != [] {
      assert names == [names[0]] + names[1..];
      DiffInOrder(before, after, names[1..]);
      var rest := DiffFrom(before, after, names[1..]);
      forall c | c in rest
        ensures Rank(names[0]) < Rank(c.field)
      {
        var k :| 0 <= k < |names[1..]| && names[1..][k] == c.field;
        assert names[k + 1] == c.field;
      }
      forall j | 0 <= j < |rest| ensures Rank(names[0]) < Rank(rest[j].field) { assert rest[j] in rest; }
    }
  }

  /** A diff describes the step between its snapshots, and replaying it takes that step. */
  lemma {:induction false} DiffDescribes(before: Fields, after: Fields)
    ensures Describes(before, after, Diff(before, after))
    ensures Apply(before, Diff(before, after)) == after
    ensures Diff(before, after) == [] <==> before == after
  {
    DiffReplays(before, after);
    DiffInOrder(before, after, DIFFED);
    forall n: FieldName
      ensures if n in DIFFED then Reports(Diff(before, after), n, Get(before, n), Get(after, n))
              else forall c <- Diff(before, after) :: c.field != n
    {
      DiffReports(before, after, DIFFED, n);
    }
    hide Reports, InFieldOrder, DiffFrom;
    assert DIFFED[0] == Status && DIFFED[1] == Priority && DIFFED[2] == Assignee && DIFFED[3] == Title;
    assert DIFFED[4] == Parent && DIFFED[5] == Tags && DIFFED[6] == HumanCheck;
    assert KindField !in DIFFED;
    assert Reports(Diff(before, after), Status, Get(before, Status), Get(after, Status));
    assert Reports(Diff(before, after), Priority, Get(before, Priority), Get(after, Priority));
    assert Reports(Diff(before, after), Assignee, Get(before, Assignee), Get(after, Assignee));
    assert Reports(Diff(before, after), Title, Get(before, Title), Get(after, Title));
    assert Reports(Diff(before, after), Parent, Get(before, Parent), Get(after, Parent));
    assert Reports(Diff(before, after), Tags, Get(before, Tags), Get(after, Tags));
    assert Reports(Diff(before, after), HumanCheck, Get(before, HumanCheck), Get(after, HumanCheck));
  }

  // ------------------------------------------------------- what belongs together

  predicate Names(f: Event, comment: nat) {
    (f.kind.CommentUpdated? || f.kind.CommentDeleted?) && f.payload.commentId == comment
  }

  /** What a comment says: its newest revision's text, or its own. */
  ghost predicate Reads(log: seq<Event>, e: Event, text: string) {
    || ((forall f <- log :: !Names(f, e.id)) && text == e.payload.body)
    || (exists r <- log :: Names(r, e.id) && (forall f <- log :: Names(f, e.id) ==> f.id <= r.id) && text == r.payload.body)
  }

  /** Two imports of one classic comment; without a record id an import stands alone. */
  predicate SameThread(e: Event, f: Event) {
    && e.kind.ImportComment? && f.kind.ImportComment?
    && (e.id == f.id
        || (e.payload.recordId != "" && f.payload.recordId != ""
            && e.payload.source + ":" + e.payload.recordId == f.payload.source + ":" + f.payload.recordId))
  }

  lemma {:induction false} ThreadsAreKeys(e: Event, f: Event)
    requires e.kind.ImportComment? && f.kind.ImportComment? && (e.id == f.id ==> e == f)
    ensures SameThread(e, f) <==> SameFoldKey(e)(f)
  {
    if SameFoldKey(e)(f) {
      if e.payload.recordId == "" { UnnamedIsAlone(e, f); }
      if f.payload.recordId == "" { UnnamedIsAlone(f, e); }
    }
    hide Digits;
  }

  /** The snapshot before one from the same source: an earlier one, and none between. */
  ghost predicate Precursor(log: seq<Event>, p: Event, e: Event) {
    && p in log && Earlier(p, e)
    && forall f <- log :: Earlier(f, e) ==> f == p || f.at < p.at || (f.at == p.at && f.id < p.id)
  }

  predicate Earlier(p: Event, e: Event) {
    && p.kind.ImportHistory? && p.payload.snapshot.Some? && p.payload.source == e.payload.source
    && (p.at < e.at || (p.at == e.at && p.id < e.id))
  }

  lemma {:induction false} PreviousIsPrecursor(log: seq<Event>, e: Event)
    requires IdsAscending(log)
    ensures Previous(log, e).Some? ==> Precursor(log, Previous(log, e).value, e)
    ensures Previous(log, e).None? ==> forall p <- log :: !Earlier(p, e)
    ensures forall p :: Precursor(log, p, e) ==> Previous(log, e) == Some(p)
  {
    var r := Previous(log, e);
    assert forall p :: Earlier(p, e) <==> Precedes(p, e);
    hide Previous;
    if r.Some? {
      forall f | f in log && Earlier(f, e)
        ensures f == r.value || f.at < r.value.at || (f.at == r.value.at && f.id < r.value.id)
      {
        assert !Later(EventStamp(f), EventStamp(r.value));
        if f.id == r.value.id { SameIdSameEvent(log, f, r.value); }
      }
    }
  }

  // ---------------------------------------------------- which events are shown

  /** The event has an item of its own. */
  ghost predicate Shown(log: seq<Event>, e: Event) {
    || e.overrideReason.Some?
    || match e.kind
       case CommentCreated => forall f <- log :: !(f.kind.CommentDeleted? && f.payload.commentId == e.id)
       case ImportComment => forall f <- log :: SameThread(e, f) ==> e.id <= f.id
       case ImportHistory =>
         e.payload.snapshot.Some? && exists p <- log :: Precursor(log, p, e) && p.payload.snapshot != e.payload.snapshot
       case NodeKindChanged => e.kindFrom != "" && e.kindTo != "" && e.kindFrom != e.kindTo
       case NodeUpdated => e.before != e.after
       case NodeMoved => e.before != e.after
       case AutopilotUndone => e.before != e.after
       case CommentUpdated => false
       case CommentDeleted => false
       case AutopilotCausalUndo => false
       case OtherKind => false
       case _ => true
  }

  /** An item about the event itself, by its actor and at its time. */
  predicate Plain(e: Event, i: Item, typ: ItemType, body: Option<string>, reason: Option<string>) {
    && i.typ == typ && i.at == e.at && i.author == Principal(e.actor) && i.body == body && i.overrideReason == reason
  }

  /** An item about an imported document, by whom the document names. */
  predicate Imported(e: Event, i: Item, typ: ItemType, at: int, body: Option<string>) {
    && i.typ == typ && i.at == at && i.author == Classic(e.payload.source, e.payload.record) && i.body == body && i.overrideReason.None?
  }

  /** What the event's item says. */
  ghost predicate Says(log: seq<Event>, e: Event, i: Item) {
    if e.overrideReason.Some? then Plain(e, i, ChangeItem, None, e.overrideReason) && i.changes == []
    else
      match e.kind
      case CommentCreated => i.body.Some? && Reads(log, e, i.body.value) && Plain(e, i, CommentItem, i.body, None) && i.changes == []
      case ImportComment =>
        i.changes == [] &&
        exists l <- log :: SameThread(e, l) && (forall f <- log :: SameThread(e, f) ==> f.id <= l.id)
                           && Imported(l, i, CommentItem, e.at, Some(l.payload.body))
      case ImportHistory =>
        Imported(e, i, ChangeItem, e.at, None) &&
        exists p <- log :: Precursor(log, p, e) && e.payload.snapshot.Some?
                           && Describes(p.payload.snapshot.value, e.payload.snapshot.value, i.changes)
                           && Apply(p.payload.snapshot.value, i.changes) == e.payload.snapshot.value
      case NodeCreated => Plain(e, i, CreatedItem, None, None) && i.changes == []
      case ImportNodeCreated => Imported(e, i, CreatedItem, e.payload.createdAt.GetOr(e.at), None) && i.changes == []
      case EntryRefused => Plain(e, i, ChangeItem, Some(e.payload.body), None) && i.changes == []
      case NodeKindChanged =>
        Plain(e, i, ChangeItem, None, None) && i.changes == [FieldChange(KindField, Some(e.kindFrom), Some(e.kindTo))]
      case AutopilotRetained => Plain(e, i, ChangeItem, None, None) && i.changes == []
      case _ =>
        Plain(e, i, ChangeItem, None, None) && Describes(e.before, e.after, i.changes) && Apply(e.before, i.changes) == e.after
  }

  // ------------------------------------------------------------------- theorem

  /** The reading of one event, case by case. */
  ghost predicate Agrees(log: seq<Event>, e: Event, o: Option<Item>) {
    (o.Some? <==> Shown(log, e)) && (o.Some? ==> o.value.id == e.id && Says(log, e, o.value))
  }

  lemma {:induction false} DirectAgrees(log: seq<Event>, e: Event)
    requires e.overrideReason.Some? || !(e.kind.CommentCreated? || e.kind.ImportComment? || e.kind.ImportHistory?)
    ensures Agrees(log, e, FoldItem(log, e))
  {
    DiffDescribes(e.before, e.after);
    hide Diff, Describes, Apply, NewestRevision, IsFirst, LastWhere, Previous;
  }

  lemma {:induction false} CommentAgrees(log: seq<Event>, e: Event)
    requires Lifecycle(log) && e in log && e.kind.CommentCreated? && e.overrideReason.None?
    ensures Agrees(log, e, FoldItem(log, e))
  {
    LifecycleAscends(log);
    var r := NewestRevision(log, e.id);
    LastWhereIsNewest(log, Revises(e.id));
    assert forall f :: Revises(e.id)(f) <==> Names(f, e.id);
    forall f | f in log && f.kind.CommentDeleted? && f.payload.commentId == e.id
      ensures r == Some(f)
    {
      var k :| 0 <= k < |log| && log[k] == f;
      DeletionIsNewest(log, k, e.id);
    }
    hide Lifecycle, LastWhere;
  }

  lemma {:induction false} ThreadIsGroup(log: seq<Event>, e: Event)
    requires IdsAscending(log) && e in log && e.kind.ImportComment?
    ensures forall f <- log :: SameThread(e, f) <==> SameFoldKey(e)(f)
  {
    forall f | f in log
      ensures SameThread(e, f) <==> SameFoldKey(e)(f)
    {
      if e.id == f.id { SameIdSameEvent(log, e, f); }
      if f.kind.ImportComment? { ThreadsAreKeys(e, f); }
    }
  }

  lemma {:induction false} ImportTold(log: seq<Event>, e: Event, same: Event -> bool, last: Event)
    requires e.kind.ImportComment? && e.overrideReason.None?
    requires forall f <- log :: SameThread(e, f) <==> same(f)
    requires last in log && same(last) && forall f <- log :: same(f) ==> f.id <= last.id
    ensures Agrees(log, e, if IsFirst(log, e, same) then Some(ImportedItem(e.id, e.at, last)) else None)
  {
    hide SameThread;
  }

  lemma {:induction false} ImportAgrees(log: seq<Event>, e: Event)
    requires Lifecycle(log) && e in log && e.kind.ImportComment?
    ensures Agrees(log, e, FoldItem(log, e))
  {
    LifecycleAscends(log);
    ImportRead(log, e, SameFoldKey(e));
    assert SameFoldKey(e)(e);
    hide Lifecycle, SameFoldKey, SameThread, ItemBy, Agrees, IsFirst;
    ThreadIsGroup(log, e);
    LastWhereIsNewest(log, SameFoldKey(e));
    var last := LastWhere(log, SameFoldKey(e));
    hide LastWhere;
    ImportTold(log, e, SameFoldKey(e), last.value);
  }

  lemma {:induction false} HistoryTold(log: seq<Event>, e: Event, p: Option<Event>)
    requires e.kind.ImportHistory? && e.overrideReason.None?
    requires p.Some? ==> Precursor(log, p.value, e)
    requires forall x :: Precursor(log, x, e) ==> p == Some(x)
    ensures Agrees(log, e, HistoryItem(SnapshotOf(p), e))
  {
    hide Precursor, Diff, Describes, Apply;
    if p.Some? {
      PrecursorHasSnapshot(log, p.value, e);
      if e.payload.snapshot.Some? { DiffDescribes(p.value.payload.snapshot.value, e.payload.snapshot.value); }
    }
  }

  lemma {:induction false} PrecursorHasSnapshot(log: seq<Event>, p: Event, e: Event)
    requires Precursor(log, p, e)
    ensures p in log && p.payload.snapshot.Some?
  {}

  lemma {:induction false} HistoryAgrees(log: seq<Event>, e: Event)
    requires Lifecycle(log) && e in log && e.kind.ImportHistory? && e.overrideReason.None?
    ensures Agrees(log, e, FoldItem(log, e))
  {
    LifecycleAscends(log);
    assert FoldItem(log, e) == HistoryItem(SnapshotOf(Previous(log, e)), e);
    hide Lifecycle, Agrees, FoldItem, HistoryItem;
    PreviousIsPrecursor(log, e);
    HistoryTold(log, e, Previous(log, e));
  }

  lemma {:induction false} EventAgrees(log: seq<Event>, e: Event)
    requires Lifecycle(log) && e in log
    ensures Agrees(log, e, FoldItem(log, e))
  {
    LifecycleAscends(log);
    hide Lifecycle, Agrees, FoldItem;
    if e.overrideReason.Some? { DirectAgrees(log, e); }
    else if e.kind.CommentCreated? { CommentAgrees(log, e); }
    else if e.kind.ImportComment? { ImportAgrees(log, e); }
    else if e.kind.ImportHistory? { HistoryAgrees(log, e); }
    else { DirectAgrees(log, e); }
  }

  /** What a list of items tells of a log: each shown event once, each item of an event, and what it says. */
  ghost predicate Tells(items: seq<Item>, log: seq<Event>) {
    && (forall e <- log :: Shown(log, e) <==> exists i <- items :: i.id == e.id)
    && (forall e <- log, i <- items :: i.id == e.id ==> Says(log, e, i))
    && (forall i <- items :: exists e <- log :: e.id == i.id)
    && (forall a, b :: 0 <= a < b < |items| ==> items[a].id != items[b].id)
    && (forall a, b :: 0 <= a < b < |items| ==>
          items[a].at > items[b].at || (items[a].at == items[b].at && items[a].id > items[b].id))
  }

  /** What the items are to the readings of the events. */
  ghost predicate ItemsOfReadings(log: seq<Event>, items: seq<Item>) {
    && (forall e <- log :: FoldItem(log, e).Some? ==> FoldItem(log, e).value in items && FoldItem(log, e).value.id == e.id)
    && (forall e <- log, i <- items :: i.id == e.id ==> FoldItem(log, e) == Some(i))
    && (forall i <- items :: exists e <- log :: e.id == i.id)
  }

  lemma {:induction false} CollectedReadings(log: seq<Event>, items: seq<Item>)
    requires Lifecycle(log) && forall i :: i in items <==> i in Collected(log)
    ensures ItemsOfReadings(log, items)
  {
    FoldIsGrouped(log);
    LifecycleAscends(log);
    hide Lifecycle, Collected, FoldItem;
    forall e | e in log
      ensures FoldItem(log, e).Some? ==> FoldItem(log, e).value in items && FoldItem(log, e).value.id == e.id
    {
      ReadingNamesEvent(log, e);
    }
    forall i | i in items
      ensures exists e <- log :: FoldItem(log, e) == Some(i) && e.id == i.id
    {
      var e :| e in log && FoldItem(log, e) == Some(i);
    }
    forall e, i | e in log && i in items && i.id == e.id
      ensures FoldItem(log, e) == Some(i)
    {
      var x :| x in log && FoldItem(log, x) == Some(i) && x.id == i.id;
      SameIdSameEvent(log, x, e);
    }
  }

  lemma {:induction false} ReadingNamesEvent(log: seq<Event>, e: Event)
    ensures FoldItem(log, e).Some? ==> FoldItem(log, e).value.id == e.id
  {
    ItemNamesEvent(log, e, SameFoldKey(e));
  }

  /** The sorted fold of a log the comment lifecycle allows tells exactly what the log says. */
  lemma {:induction false} TimelineTells(log: seq<Event>, items: seq<Item>)
    requires Lifecycle(log) && IsTimeline(items, Collected(log))
    ensures Tells(items, log)
  {
    hide Lifecycle, Collected, FoldItem, Shown, Says, Descending, ItemsOfReadings;
    CollectedReadings(log, items);
    ItemsDistinct(log, items);
    forall e | e in log
      ensures Shown(log, e) <==> exists i <- items :: i.id == e.id
      ensures forall i <- items :: i.id == e.id ==> Says(log, e, i)
    {
      EventTold(log, items, e);
    }
    assert forall i <- items :: exists e <- log :: e.id == i.id by { OfEvents(log, items); }
  }

  lemma {:induction false} OfEvents(log: seq<Event>, items: seq<Item>)
    requires ItemsOfReadings(log, items)
    ensures forall i <- items :: exists e <- log :: e.id == i.id
  {
    hide FoldItem;
  }

  lemma {:induction false} ReadingIn(log: seq<Event>, items: seq<Item>, e: Event)
    requires ItemsOfReadings(log, items) && e in log
    ensures var o := FoldItem(log, e);
            && (o.Some? ==> o.value in items && o.value.id == e.id)
            && forall i <- items :: i.id == e.id ==> o == Some(i)
  {
    hide FoldItem;
  }

  lemma {:induction false} EventTold(log: seq<Event>, items: seq<Item>, e: Event)
    requires Lifecycle(log) && ItemsOfReadings(log, items) && e in log
    ensures Shown(log, e) <==> exists i <- items :: i.id == e.id
    ensures forall i <- items :: i.id == e.id ==> Says(log, e, i)
  {
    hide Lifecycle, FoldItem, Shown, Says, ItemsOfReadings;
    EventAgrees(log, e);
    ReadingIn(log, items, e);
    var o := FoldItem(log, e);
    if o.Some? { assert o.value in items && o.value.id == e.id; }
  }

  lemma {:induction false} ItemsDistinct(log: seq<Event>, items: seq<Item>)
    requires Descending(items, ItemStamp) && ItemsOfReadings(log, items)
    ensures forall a, b :: 0 <= a < b < |items| ==> items[a].id != items[b].id
    ensures forall a, b :: 0 <= a < b < |items| ==>
              items[a].at > items[b].at || (items[a].at == items[b].at && items[a].id > items[b].id)
  {
    hide FoldItem;
    forall a, b | 0 <= a < b < |items|
      ensures items[a].id != items[b].id
      ensures items[a].at > items[b].at || (items[a].at == items[b].at && items[a].id > items[b].id)
    {
      assert Later(ItemStamp(items[a]), ItemStamp(items[b]));
      var e :| e in log && e.id == items[a].id;
      assert items[a] in items && items[b] in items;
      assert FoldItem(log, e) == Some(items[a]) && (items[b].id == e.id ==> FoldItem(log, e) == Some(items[b]));
    }
  }

  /** So do the pages a client follows to the end, however the log grows in between. */
  lemma {:induction false} PagesTell(steps: seq<Step>, h: History, later: seq<seq<Event>>, limit: nat, pages: seq<Page>)
    requires Reachable(steps, h) && KeysAgree(h.log)
    requires Walk(h.log, later, limit, pages) && pages[|pages| - 1].next.None?
    ensures Tells(Concat(pages), h.log)
  {
    PagesAreTheFold(steps, h, later, limit, pages);
    ReachableLogsObeyLifecycle(steps, h);
    hide Reachable, KeysAgree, Walk, Lifecycle, Tells;
    TimelineTells(h.log, Concat(pages));
  }

  /** The record an import stands for: its own id, or without one the event's number. */
  function RecordOf(e: Event): string { if e.payload.recordId != "" then e.payload.recordId else Digits(e.id) }

  /**
   * The candidates of a page: not revisions, causal texts or foreign events; of
   * comments those not deleted, of imports the first of each source's record.
   */
  lemma {:induction false} CandidatesTell(view: seq<Event>, e: Event)
    requires Lifecycle(view)
    ensures IsRow(view, e) <==>
            && !e.kind.CommentUpdated? && !e.kind.CommentDeleted? && !e.kind.OtherKind?
            && (e.kind.CommentCreated? ==> forall f <- view :: !(f.kind.CommentDeleted? && f.payload.commentId == e.id))
            && (e.kind.ImportComment? ==>
                  forall f <- view :: f.kind.ImportComment? && f.payload.source == e.payload.source && RecordOf(f) == RecordOf(e) ==> e.id <= f.id)
  {
    DeletionFound(view, e.id);
    assert forall f: Event :: SameRecord(e)(f) <==> f.kind.ImportComment? && f.payload.source == e.payload.source && RecordOf(f) == RecordOf(e);
    hide Lifecycle, NewestRevision, Digits;
  }

  // ------------------------------------------------------------- operations

  /** The comment an operation names, by its author and within fifteen minutes, and not deleted. */
  ghost predicate MayEdit(log: seq<Event>, op: CommentOp) {
    exists c <- log ::
      && c.kind.CommentCreated? && c.id == op.commentId && c.actor == op.actor
      && c.at <= op.check < c.at + 900_000_000
      && forall f <- log :: !(f.kind.CommentDeleted? && f.payload.commentId == op.commentId)
  }

  lemma {:induction false} CommentFound(log: seq<Event>, id: nat)
    requires IdsAscending(log)
    ensures var found := LastWhere(log, IsCreation(id));
            forall c <- log :: c.kind.CommentCreated? && c.id == id ==> found == Some(c)
  {
    var found := LastWhere(log, IsCreation(id));
    forall c | c in log && c.kind.CommentCreated? && c.id == id
      ensures found == Some(c)
    {
      assert IsCreation(id)(c);
      SameIdSameEvent(log, c, found.value);
    }
  }

  lemma {:induction false} DeletionFound(log: seq<Event>, id: nat)
    requires Lifecycle(log)
    ensures var latest := NewestRevision(log, id);
            (latest.Some? && latest.value.kind.CommentDeleted?) <==> exists f <- log :: f.kind.CommentDeleted? && f.payload.commentId == id
  {
    LifecycleAscends(log);
    forall f | f in log && f.kind.CommentDeleted? && f.payload.commentId == id
      ensures NewestRevision(log, id) == Some(f)
    {
      var k :| 0 <= k < |log| && log[k] == f;
      DeletionIsNewest(log, k, id);
    }
    hide Lifecycle;
  }

  /** A new comment is always accepted, a change exactly from the author, in time, of a comment not deleted. */
  lemma {:induction false} AcceptedExactly(log: seq<Event>, op: CommentOp)
    requires Lifecycle(log)
    ensures Decide(log, op).Ok? <==> op.commentId == 0 || MayEdit(log, op)
  {
    LifecycleAscends(log);
    CommentFound(log, op.commentId);
    DeletionFound(log, op.commentId);
    hide Lifecycle, LastWhere, NewestRevision, CommentEvent;
    var found := LastWhere(log, IsCreation(op.commentId));
    if found.Some? { assert IsCreation(op.commentId)(found.value); }
  }

  /** A comment that is not there, or not any more, is not found; one of somebody else, or past its time, is forbidden. */
  lemma {:induction false} RefusedTells(log: seq<Event>, op: CommentOp)
    requires Lifecycle(log) && Decide(log, op).Err?
    ensures Decide(log, op).error ==
            if !exists c <- log :: c.kind.CommentCreated? && c.id == op.commentId then NotFound
            else if !exists c <- log :: c.kind.CommentCreated? && c.id == op.commentId && c.actor == op.actor then Forbidden
            else if exists f <- log :: f.kind.CommentDeleted? && f.payload.commentId == op.commentId then NotFound
            else Forbidden
  {
    LifecycleAscends(log);
    CommentFound(log, op.commentId);
    DeletionFound(log, op.commentId);
    hide Lifecycle, LastWhere, NewestRevision, CommentEvent;
    var found := LastWhere(log, IsCreation(op.commentId));
    if found.Some? { assert IsCreation(op.commentId)(found.value); }
  }

  /** The event an accepted operation appends. */
  lemma {:induction false} DecidedEvent(log: seq<Event>, op: CommentOp)
    requires Decide(log, op).Ok?
    ensures var e := Decide(log, op).value;
            && e.id == op.eventId && e.actor == op.actor && e.at == op.append && e.overrideReason.None?
            && e.kind == (if op.commentId == 0 then CommentCreated else if op.remove then CommentDeleted else CommentUpdated)
            && (op.commentId == 0 || !op.remove ==> e.payload.body == op.body)
            && (op.commentId != 0 ==>
                  e.payload.commentId == op.commentId && exists c <- log :: c.kind.CommentCreated? && c.id == op.commentId)
  {
    hide LastWhere, NewestRevision;
    if op.commentId != 0 { assert IsCreation(op.commentId)(LastWhere(log, IsCreation(op.commentId)).value); }
  }

  lemma {:induction false} NewestIsRead(log: seq<Event>, c: Event)
    requires IdsAscending(log)
    ensures Reads(log, c, NewestRevision(log, c.id).GetOr(c).payload.body)
  {
    var r := NewestRevision(log, c.id);
    LastWhereIsNewest(log, Revises(c.id));
    assert forall f :: Revises(c.id)(f) <==> Names(f, c.id);
    hide LastWhere, IdsAscending;
  }

  /** A deletion keeps the text the comment read. */
  lemma {:induction false} DeletionKeepsText(log: seq<Event>, op: CommentOp, c: Event)
    requires Lifecycle(log) && op.remove && op.commentId != 0 && Decide(log, op).Ok?
    requires c in log && c.kind.CommentCreated? && c.id == op.commentId
    ensures Reads(log, c, Decide(log, op).value.payload.body)
  {
    LifecycleAscends(log);
    CommentFound(log, op.commentId);
    NewestIsRead(log, c);
    hide Lifecycle, Reads, LastWhere, NewestRevision, IdsAscending;
  }

  /** A revision appended to a log is the newest of its comment. */
  lemma {:induction false} AppendedReads(log: seq<Event>, e: Event, c: Event)
    requires (forall f <- log :: f.id < e.id) && Names(e, c.id)
    ensures Reads(log + [e], c, e.payload.body)
  {
    assert e in log + [e];
  }

  lemma {:induction false} AppendedShows(log: seq<Event>, e: Event, c: Event)
    requires c.kind.CommentCreated? && c.overrideReason.None? && Names(e, c.id)
    requires e.kind.CommentUpdated? ==> forall f <- log :: !(f.kind.CommentDeleted? && f.payload.commentId == c.id)
    ensures Shown(log + [e], c) <==> e.kind.CommentUpdated?
  {
    assert e in log + [e];
  }

  /**
   * After an accepted operation the comment reads the new text, or is no longer
   * shown; it is by the actor, at the clock the event records.
   */
  lemma {:induction false} AcceptedIsRead(log: seq<Event>, op: CommentOp)
    requires Decide(log, op).Ok? && Lifecycle(log + [Decide(log, op).value])
    ensures var e := Decide(log, op).value;
            var next := log + [e];
            && e.id == op.eventId && e.actor == op.actor && e.at == op.append
            && (op.commentId == 0 ==> Shown(next, e) && Reads(next, e, op.body))
            && (op.commentId != 0 ==>
                  && (exists c <- log :: c.kind.CommentCreated? && c.id == op.commentId)
                  && forall c <- log :: c.kind.CommentCreated? && c.id == op.commentId && c.overrideReason.None? ==>
                       if op.remove then !Shown(next, c) else Shown(next, c) && Reads(next, c, op.body))
  {
    var e := Decide(log, op).value;
    var next := log + [e];
    DecidedEvent(log, op);
    PrefixLifecycle(log, e);
    if op.commentId == 0 {
      NoRevisionYet(log, e);
      hide Lifecycle, Decide;
    } else {
      AcceptedExactly(log, op);
      hide Lifecycle, Decide, Shown, Reads;
      forall c | c in log && c.kind.CommentCreated? && c.id == op.commentId && c.overrideReason.None?
        ensures if op.remove then !Shown(next, c) else Shown(next, c) && Reads(next, c, op.body)
      {
        AppendedReads(log, e, c);
        AppendedShows(log, e, c);
      }
    }
  }

  lemma {:induction false} NoRevisionYet(log: seq<Event>, e: Event)
    requires Lifecycle(log + [e]) && e.kind.CommentCreated?
    ensures forall f <- log + [e] :: !Names(f, e.id)
  {
    var next, n := log + [e], |log|;
    assert next[n] == e;
    forall j | 0 <= j < |next|
      ensures !Names(next[j], e.id)
    {
      if IsRevision(next[j]) {
        var i :| 0 <= i < |next| && RevisionOf(next, i, j);
        assert next[i].id != next[n].id;
      }
    }
  }
}
