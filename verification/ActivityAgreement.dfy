/**
 * The paged timeline agrees with the fold: following cursors until none is
 * returned terminates and shows every item of `project` once, in order, however
 * the log grows between pages.
 */
module ActivityAgreement {
  import opened Wrappers
  import opened NewestFirst
  import opened ActivityEvents
  import opened ActivityComments
  import opened ActivityProjection
  import opened ActivityPointwise
  import opened ActivityPages

  // ------------------------------------- candidates and the pointwise reading

  /** In a lifecycle log a candidate shows what the pointwise reading shows, and the other events show nothing. */
  lemma {:induction false} RowItemIsPoint(view: seq<Event>, e: Event)
    requires Lifecycle(view) && e in view
    ensures IsRow(view, e) ==> RowItem(view, e) == PointItem(view, e)
    ensures !IsRow(view, e) ==> PointItem(view, e).None?
  {
    assert e.overrideReason.Some? ==> MayOverride(e.kind);
    hide Lifecycle, Diff;
    if e.kind.ImportHistory? {
      var p := Previous(view, e);
      assert p.Some? ==> SnapshotOf(RowPrevious(view, e)) == p.value.payload.snapshot;
    } else if e.kind.CommentCreated? {
      var r := NewestRevision(view, e.id);
      assert r.Some? ==> Revises(e.id)(r.value);
    } else if e.kind.ImportComment? {
      assert SameRecord(e)(e);
    }
  }

  lemma {:induction false} AppendedMembers(items: seq<Item>, o: Option<Item>)
    ensures forall i :: i in Append(items, o) <==> i in items || o == Some(i)
  {}

  lemma {:induction false} AppendedDescends(items: seq<Item>, o: Option<Item>)
    requires Descending(items, ItemStamp)
    requires o.Some? ==> forall i <- items :: Later(ItemStamp(i), ItemStamp(o.value))
    ensures Descending(Append(items, o), ItemStamp)
  {
    hide ItemStamp, Later;
    if o.Some? {
      forall j | 0 <= j < |items| ensures Later(ItemStamp(items[j]), ItemStamp(o.value)) { assert items[j] in items; }
    }
  }

  lemma {:induction false} FrontDescends(rows: seq<Event>)
    requires rows != [] && Descending(rows, RowStamp)
    ensures Descending(rows[..|rows| - 1], RowStamp)
  {
    hide RowStamp;
  }

  lemma {:induction false} ItemsOfMembers(view: seq<Event>, rows: seq<Event>)
    requires Descending(rows, RowStamp)
    ensures Descending(ItemsOf(view, rows), ItemStamp)
    ensures forall i :: i in ItemsOf(view, rows) <==> exists e <- rows :: RowItem(view, e) == Some(i)
    ensures forall i <- ItemsOf(view, rows) :: exists e <- rows :: RowStamp(e) == ItemStamp(i)
  {
    if rows == [] {
      NoItems(view, rows);
      assert rows[..0] == rows;
      NothingDescends();
    } else {
      hide *;
      var front, e := rows[..|rows| - 1], rows[|rows| - 1];
      assert rows == front + [e];
      FrontDescends(rows);
      ItemsOfMembers(view, front);
      ItemsOfSnoc(view, rows, |rows| - 1);
      assert rows[..|rows|] == rows;
      RowItemStamp(view, e);
      LaterThanAll(view, front, e);
      AppendedMembers(ItemsOf(view, front), RowItem(view, e));
      AppendedDescends(ItemsOf(view, front), RowItem(view, e));
      assert forall x :: x in rows <==> x in front || x == e;
    }
  }

  lemma {:induction false} NothingDescends()
    ensures Descending([], ItemStamp)
  {}

  lemma {:induction false} LaterThanAll(view: seq<Event>, front: seq<Event>, e: Event)
    requires Descending(front + [e], RowStamp)
    requires forall i <- ItemsOf(view, front) :: exists x <- front :: RowStamp(x) == ItemStamp(i)
    ensures forall i <- ItemsOf(view, front) :: Later(ItemStamp(i), RowStamp(e))
  {
    hide ItemsOf, ItemStamp, RowStamp;
    forall i | i in ItemsOf(view, front)
      ensures Later(ItemStamp(i), RowStamp(e))
    {
      var x :| x in front && RowStamp(x) == ItemStamp(i);
      var k :| 0 <= k < |front| && front[k] == x;
      assert (front + [e])[k] == x && (front + [e])[|front|] == e;
    }
  }

  /** All candidates together show exactly the sorted fold of what the watermark fences. */
  lemma {:induction false} AllRowsAreTheTimeline(view: seq<Event>)
    requires Lifecycle(view) && KeysAgree(view)
    ensures IsTimeline(ItemsOf(view, Rows(view)), Collected(view))
  {
    RowsSorted(view);
    ItemsOfMembers(view, Rows(view));
    FoldIsPointwise(view);
    hide Lifecycle, KeysAgree, Collected, RowItem, PointItem, IsRow, Rows, ItemsOf, Descending;
    forall i
      ensures i in ItemsOf(view, Rows(view)) <==> i in Collected(view)
    {
      if i in ItemsOf(view, Rows(view)) {
        var e :| e in Rows(view) && RowItem(view, e) == Some(i);
        RowItemIsPoint(view, e);
        assert e in view && PointItem(view, e) == Some(i);
      }
      if i in Collected(view) {
        var e :| e in view && PointItem(view, e) == Some(i);
        RowItemIsPoint(view, e);
        assert e in Rows(view);
      }
    }
  }

  // ----------------------------------------------------- following cursors

  /** Pages a client gets by handing each page's cursor back, over any states of the log. */
  ghost predicate Follows(view: seq<Event>, watermark: nat, limit: nat, c: Option<Cursor>, pages: seq<Page>)
    decreases |pages|
  {
    && pages != []
    && IsPage(view, watermark, limit, c, pages[0])
    && (|pages| > 1 ==> pages[0].next.Some? && Follows(view, watermark, limit, pages[0].next, pages[1..]))
  }

  function Concat(pages: seq<Page>): seq<Item> {
    if pages == [] then [] else pages[0].items + Concat(pages[1..])
  }

  /** A cursor taken from a row resumes exactly below that row. */
  lemma {:induction false} AfterResumes(rows: seq<Event>, watermark: nat, c: Option<Cursor>, n: nat, k: nat)
    requires Descending(rows, RowStamp) && n <= |rows| && After(rows, c) == rows[n..]
    requires 1 <= k <= |rows| - n
    ensures After(rows, Some(CursorAt(watermark, rows[n..][k - 1]))) == rows[n + k..]
  {
    hide *;
    assert rows[n..][k - 1] == rows[n + k - 1];
    AfterRow(rows, watermark, n + k - 1);
  }

  lemma {:induction false} AfterRow(rows: seq<Event>, watermark: nat, m: nat)
    requires Descending(rows, RowStamp) && m < |rows|
    ensures After(rows, Some(CursorAt(watermark, rows[m]))) == rows[m + 1..]
    decreases |rows|
  {
    var c := CursorAt(watermark, rows[m]);
    if m == 0 {
      assert After(rows, Some(c)) == After(rows[1..], Some(c));
      if |rows| > 1 { assert Later(RowStamp(rows[0]), RowStamp(rows[1])); }
    } else {
      assert Later(RowStamp(rows[0]), RowStamp(rows[m]));
      AfterRow(rows[1..], watermark, m - 1);
      assert rows[1..][m..] == rows[m + 1..];
    }
  }

  lemma {:induction false} ItemsOfAppend(view: seq<Event>, a: seq<Event>, b: seq<Event>)
    ensures ItemsOf(view, a + b) == ItemsOf(view, a) + ItemsOf(view, b)
    decreases |b|
  {
    hide RowItem;
    if b == [] {
      assert a + b == a;
    } else {
      var front := b[..|b| - 1];
      assert (a + b)[..|a + b| - 1] == a + front;
      ItemsOfAppend(view, a, front);
    }
  }

  /** The run of candidates behind the first page of a chain. */
  lemma {:induction false} FirstPage(view: seq<Event>, watermark: nat, limit: nat, c: Option<Cursor>, pages: seq<Page>) returns (k: nat)
    requires Follows(view, watermark, limit, c, pages)
    ensures var rows := After(Rows(view), c);
            && pages != [] && k <= |rows| && pages[0].items == ItemsOf(view, rows[..k])
            && (pages[0].next.None? ==> k == |rows|)
            && (pages[0].next.Some? ==> k >= 1 && pages[0].next.value == CursorAt(watermark, rows[k - 1]))
            && (|pages| > 1 ==> pages[0].next.Some? && Follows(view, watermark, limit, pages[0].next, pages[1..]))
  {
    hide ItemsOf, Rows, After, CursorAt;
    k :| Shows(view, watermark, After(Rows(view), c), limit, pages[0], k);
  }

  lemma {:induction false} ConcatFirst(pages: seq<Page>)
    requires pages != []
    ensures Concat(pages) == pages[0].items + Concat(pages[1..])
    ensures |pages| == 1 ==> Concat(pages[1..]) == []
  {}

  /**
   * Any chain of pages is at most one page longer than the candidates it has
   * left, and a complete one shows exactly their items, in order.
   */
  lemma {:induction false} FollowedPages(view: seq<Event>, watermark: nat, limit: nat, c: Option<Cursor>, pages: seq<Page>, n: nat)
    requires Descending(Rows(view), RowStamp)
    requires n <= |Rows(view)| && After(Rows(view), c) == Rows(view)[n..]
    requires Follows(view, watermark, limit, c, pages)
    ensures |pages| <= |Rows(view)| - n + 1
    ensures pages[|pages| - 1].next.None? ==> Concat(pages) == ItemsOf(view, Rows(view)[n..])
    decreases |pages|
  {
    hide *;
    var all := Rows(view);
    var rows := all[n..];
    var k := FirstPage(view, watermark, limit, c, pages);
    assert rows[..k] + rows[k..] == rows && rows[k..] == all[n + k..];
    ItemsOfAppend(view, rows[..k], rows[k..]);
    ConcatFirst(pages);
    if |pages| > 1 {
      AfterResumes(all, watermark, c, n, k);
      FollowedPages(view, watermark, limit, pages[0].next, pages[1..], n + k);
      assert pages[1..][|pages| - 2] == pages[|pages| - 1];
    } else if pages[0].next.None? {
      assert rows[k..] == [] && rows[..k] == rows;
    }
  }

  /** Whatever is appended later, at whatever time, stays above the watermark. */
  lemma {:induction false} FencedView(log: seq<Event>, more: seq<Event>)
    requires IdsAscending(log + more)
    ensures Upto(log + more, NewestId(log)) == log
    decreases |more|
  {
    if more == [] {
      assert log + more == log;
      WholeView(log, NewestId(log));
    } else {
      var front := more[..|more| - 1];
      var whole := log + more;
      assert whole[..|whole| - 1] == log + front;
      FencedView(log, front);
      if log != [] { assert whole[|log| - 1].id < whole[|whole| - 1].id; }
    }
  }

  lemma {:induction false} WholeView(log: seq<Event>, watermark: nat)
    requires IdsAscending(log) && NewestId(log) <= watermark
    ensures Upto(log, watermark) == log
  {
    if log != [] {
      var front := log[..|log| - 1];
      WholeView(front, watermark);
      assert log == front + [log[|log| - 1]];
    }
  }

  /** The cursor the client sends for page `k`. */
  function CursorFor(pages: seq<Page>, k: nat): Option<Cursor>
    requires k <= |pages|
  {
    if k == 0 then None else pages[k - 1].next
  }

  /** Page `k` of a client's walk reads some later state of the log; only its first page sets the watermark. */
  ghost predicate Walk(log: seq<Event>, later: seq<seq<Event>>, limit: nat, pages: seq<Page>) {
    && |pages| == |later| && pages != []
    && (forall k :: 0 <= k < |later| ==> IdsAscending(log + later[k]))
    && (forall k :: 0 <= k < |pages| ==>
          IsPage(Upto(log + later[k], NewestId(log)), NewestId(log), limit, CursorFor(pages, k), pages[k]))
    && (forall k :: 0 <= k < |pages| - 1 ==> pages[k].next.Some?)
  }

  lemma {:induction false} WalkFollows(log: seq<Event>, later: seq<seq<Event>>, limit: nat, pages: seq<Page>, k: nat)
    requires Walk(log, later, limit, pages) && k < |pages|
    ensures Follows(log, NewestId(log), limit, CursorFor(pages, k), pages[k..])
    decreases |pages| - k
  {
    var view, w := Upto(log + later[k], NewestId(log)), NewestId(log);
    FencedView(log, later[k]);
    assert IsPage(view, w, limit, CursorFor(pages, k), pages[k]);
    hide IsPage, IdsAscending;
    assert pages[k..][0] == pages[k];
    if k + 1 < |pages| {
      WalkFollows(log, later, limit, pages, k + 1);
      assert pages[k..][1..] == pages[k + 1..];
      assert pages[k].next.Some?;
      assert Follows(log, w, limit, pages[k..][0].next, pages[k..][1..]);
    }
  }

  /**
   * The paging theorem. For every reachable log and every limit: a walk is at
   * most one page longer than the candidates, and when its last page has no
   * cursor the pages concatenate to the sorted fold of all events up to the
   * watermark, each item exactly once, even though events were appended or
   * backdated between pages.
   */
  lemma {:induction false} PagesAreTheFold(steps: seq<Step>, h: History, later: seq<seq<Event>>, limit: nat, pages: seq<Page>)
    requires Reachable(steps, h) && KeysAgree(h.log)
    requires Walk(h.log, later, limit, pages)
    ensures |pages| <= |Rows(h.log)| + 1
    ensures pages[|pages| - 1].next.None? ==> IsTimeline(Concat(pages), Collected(h.log))
  {
    ReachableLogsObeyLifecycle(steps, h);
    AllRowsAreTheTimeline(h.log);
    WalkFollows(h.log, later, limit, pages, 0);
    assert pages[0..] == pages;
    RowsSorted(h.log);
    assert Rows(h.log)[0..] == Rows(h.log);
    FollowedPages(h.log, NewestId(h.log), limit, None, pages, 0);
  }

  // ------------------------------------------------------ cursor acceptance

  /** Go's zero time, which `decodeCursor` refuses. */
  const ZERO_TIME: int := 0

  predicate Accepted(c: Cursor) {
    c.watermark >= 1 && 1 <= c.id <= c.watermark && c.at != ZERO_TIME
  }

  /** Every cursor a page hands out can be handed back, except when its row is at the zero time. */
  lemma {:induction false} CursorRoundTrip(log: seq<Event>, watermark: nat, limit: nat, c: Option<Cursor>, page: Page)
    requires IdsAscending(log) && IsPage(Upto(log, watermark), watermark, limit, c, page) && page.next.Some?
    ensures Accepted(page.next.value) <==> page.next.value.at != ZERO_TIME
  {
    hide Rows, ItemsOf, After;
    var view := Upto(log, watermark);
    UptoAscends(log, watermark);
    RowsAreEvents(view, c);
    var rows := After(Rows(view), c);
    var k: nat :| Shows(view, watermark, rows, limit, page, k);
    assert rows[k - 1] in rows;
    var m :| 0 <= m < |view| && view[m] == rows[k - 1];
  }

  function CreatedAtZero(id: nat): Event {
    Event(id, 5, ImportNodeCreated, "", NO_FIELDS, NO_FIELDS, Payload(0, "", "", "", "", None, Some(ZERO_TIME)), None, "", "")
  }

  lemma {:induction false} CreationsAreRows(view: seq<Event>)
    ensures Filter(view, [CreatedAtZero(1), CreatedAtZero(2)]) == [CreatedAtZero(1), CreatedAtZero(2)]
  {
    var first, second := CreatedAtZero(1), CreatedAtZero(2);
    assert IsRow(view, first) && IsRow(view, second);
    hide IsRow;
    assert [first, second][1..] == [second] && [second][1..] == [];
    assert Filter(view, []) == [];
    assert Filter(view, [second]) == [second];
  }

  lemma {:induction false} CreationsSorted()
    ensures Sort([CreatedAtZero(1), CreatedAtZero(2)], RowStamp) == [CreatedAtZero(2), CreatedAtZero(1)]
  {
    var first, second := CreatedAtZero(1), CreatedAtZero(2);
    assert [first, second][1..] == [second] && [second][1..] == [] && [] + [first] == [first];
    assert Sort([], RowStamp) == [] && Insert([], RowStamp, second) == [second];
    assert Sort([second], RowStamp) == [second];
    assert Insert([], RowStamp, first) == [first];
    assert Insert([second], RowStamp, first) == [second] + Insert([second][1..], RowStamp, first);
    assert [second] + [first] == [second, first];
  }

  lemma {:induction false} CreationsLive(log: seq<Event>)
    requires log == [CreatedAtZero(1), CreatedAtZero(2)]
    ensures Lifecycle(log) && NewestId(log) == 2 && Upto(log, 2) == log
    ensures Rows(log) == [log[1], log[0]]
  {
    assert IdsAscending(log);
    WholeView(log, 2);
    CreationsAreRows(log);
    CreationsSorted();
    hide Sort, Filter, Upto;
  }

  lemma {:induction false} PageWitness(view: seq<Event>, watermark: nat, limit: nat, page: Page, k: nat)
    requires Shows(view, watermark, Rows(view), limit, page, k)
    ensures IsPage(view, watermark, limit, None, page)
  {
    hide Rows, ItemsOf;
    var rows := After(Rows(view), None);
    assert rows == Rows(view) && Shows(view, watermark, rows, limit, page, k);
  }

  /** Two imported creations at the zero time: the first page of one item hands out a cursor that is refused, with a row still behind it. */
  lemma {:induction false} ZeroTimeCursor() returns (log: seq<Event>, page: Page)
    ensures Lifecycle(log) && IsPage(Upto(log, NewestId(log)), NewestId(log), 1, None, page)
    ensures page.next.Some? && !Accepted(page.next.value) && After(Rows(log), page.next) != []
  {
    hide Lifecycle, RowItem, Rows, Upto, IsPage, NewestId;
    log := [CreatedAtZero(1), CreatedAtZero(2)];
    CreationsLive(log);
    var rows := Rows(log);
    NoItems(log, rows);
    ItemsOfSnoc(log, rows, 0);
    page := Page(ItemsOf(log, rows[..1]), Some(CursorAt(2, rows[0])));
    PageWitness(log, 2, 1, page, 1);
    AfterRow(rows, 2, 0);
  }
}
