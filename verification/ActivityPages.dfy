/**
 * Keyset paging of the timeline: the candidate query, one page (`read`) and the
 * cursor, in internal/activity/timeline.go. Every lookup is fenced at the
 * watermark the first page took.
 */
module ActivityPages {
  import opened Wrappers
  import opened NewestFirst
  import opened ActivityEvents
  import opened ActivityComments
  import opened ActivityProjection
  import opened ActivityPointwise

  const MAX_CANDIDATES: nat := 1000

  datatype Cursor = Cursor(watermark: nat, at: int, id: nat)

  datatype Page = Page(items: seq<Item>, next: Option<Cursor>)

  /** `e.id <= $3`: what a page fenced at the watermark sees of the log. */
  function Upto(log: seq<Event>, watermark: nat): seq<Event> {
    if log == [] then []
    else
      var last := log[|log| - 1];
      Upto(log[..|log| - 1], watermark) + (if last.id <= watermark then [last] else [])
  }

  // ------------------------------------------------------- candidate rows

  /** The event types the query selects. */
  predicate Listed(k: Kind) {
    !(k.CommentUpdated? || k.CommentDeleted? || k.OtherKind?)
  }

  /** The query's WHERE clause, apart from the cursor. */
  predicate IsRow(view: seq<Event>, e: Event) {
    && Listed(e.kind)
    && (e.kind.CommentCreated? ==>
          var latest := NewestRevision(view, e.id);
          !(latest.Some? && latest.value.kind.CommentDeleted?))
    && (e.kind.ImportComment? ==> IsFirstImport(view, e))
  }

  /** The row's own columns: activity time, and the newest revision's document. */
  function RowEvent(view: seq<Event>, e: Event): Event {
    var row := e.(at := ActivityAt(e));
    if e.kind.CommentCreated? then row.(payload := NewestRevision(view, e.id).GetOr(e).payload)
    else if e.kind.ImportComment? then
      var latest := LastWhere(view, SameRecord(e)).GetOr(e);
      row.(payload := latest.payload, actor := latest.actor)
    else row
  }

  /** The lateral previous snapshot; its metadata is not read. */
  function RowPrevious(view: seq<Event>, e: Event): Option<Event> {
    if !e.kind.ImportHistory? then None
    else
      match Previous(view, e)
      case None => None
      case Some(p) => Some(p.(overrideReason := None))
  }

  /** What a page hands to `project` for one candidate. */
  function RowInput(view: seq<Event>, e: Event): seq<Event> {
    match RowPrevious(view, e)
    case None => [RowEvent(view, e)]
    case Some(p) => [p, RowEvent(view, e)]
  }

  function Filter(view: seq<Event>, log: seq<Event>): seq<Event> {
    if log == [] then []
    else (if IsRow(view, log[0]) then [log[0]] else []) + Filter(view, log[1..])
  }

  /** All candidates of the log, in timeline order. */
  function Rows(view: seq<Event>): seq<Event> {
    Sort(Filter(view, view), RowStamp)
  }

  /** `(at,id) < cursor` over rows already in order. */
  function After(rows: seq<Event>, c: Option<Cursor>): seq<Event> {
    if c.None? || rows == [] then rows
    else if Later(Stamp(c.value.at, c.value.id), RowStamp(rows[0])) then rows
    else After(rows[1..], c)
  }

  // --------------------------------------------------- one candidate's item

  /** The item `project` makes of one candidate and its previous snapshot. */
  function SingleItem(previous: Option<Event>, row: Event): Option<Item> {
    if row.overrideReason.Some? then Some(OverrideItem(row))
    else if row.kind.CommentCreated? then Some(CommentItemOf(row, row.payload.body))
    else if IsRevision(row) then None
    else if row.kind.ImportComment? then Some(ImportedItem(row.id, row.at, row))
    else if row.kind.ImportHistory? then HistoryItem(SnapshotOf(previous), row)
    else OwnItem(row)
  }

  function RowItem(view: seq<Event>, e: Event): Option<Item> {
    SingleItem(RowPrevious(view, e), RowEvent(view, e))
  }

  function ItemsOf(view: seq<Event>, rows: seq<Event>): seq<Item> {
    if rows == [] then []
    else Append(ItemsOf(view, rows[..|rows| - 1]), RowItem(view, rows[|rows| - 1]))
  }

  ghost predicate IsPreviousOf(previous: Option<Event>, row: Event) {
    previous.Some? ==>
      && previous.value.id != row.id && previous.value.id >= 1
      && previous.value.overrideReason.None?
      && row.kind.ImportHistory? && Precedes(previous.value, row)
  }

  function InputOf(previous: Option<Event>, row: Event): seq<Event> {
    match previous
    case None => [row]
    case Some(p) => [p, row]
  }

  /** Projecting one candidate yields its own item and nothing else. */
  lemma {:induction false} InputCollects(previous: Option<Event>, row: Event)
    requires IsPreviousOf(previous, row) && row.id >= 1
    ensures forall i :: i in Collected(InputOf(previous, row)) <==> SingleItem(previous, row) == Some(i)
  {
    var input := InputOf(previous, row);
    match previous
    case None =>
      FoldSnoc([], row);
      assert [] + [row] == [row];
      assert Fold(input) == FoldStep(START, row);
      LonePrevious(row);
      SingleCollects(previous, row, Fold(input));
    case Some(p) =>
      FoldSnoc([], p);
      FoldSnoc([p], row);
      assert [] + [p] == [p] && [p] + [row] == [p, row];
      PairPrevious(p, row);
      PairCollects(p, row);
  }

  lemma {:induction false} LonePrevious(row: Event)
    ensures Previous([row], row) == None
  {
    assert Previous([row][..0], row) == None;
  }

  lemma {:induction false} PairPrevious(p: Event, row: Event)
    requires Precedes(p, row)
    ensures Previous([p, row], row) == Some(p) && Previous([p, row], p) == None && Previous([p], p) == None
  {
    LonePrevious(p);
    assert [p, row][..1] == [p];
    assert Previous([p][..0], row) == None;
    assert Previous([p], row) == Some(p);
  }

  lemma {:induction false} SingleCollects(previous: Option<Event>, row: Event, s: FoldState)
    requires previous.None? && s == Fold([row]) && s == FoldStep(START, row) && Previous([row], row) == None
    ensures forall i :: i in Collected([row]) <==> SingleItem(previous, row) == Some(i)
  {
    assert HistoryItem(None, row) == None;
    hide Fold, Previous, OwnItem, HistoryItem;
    assert SlotOf(row) == HistorySlot ==> s.history == [row];
    forall i
      ensures i in Collected([row]) <==> SingleItem(previous, row) == Some(i)
    {
      if i in s.comments.Values {
        var k :| k in s.comments && s.comments[k] == i;
      }
      if SlotOf(row) == CommentSlot && row.kind.CommentCreated? {
        assert s.comments[row.id] == CommentItemOf(row, row.payload.body);
        assert s.comments.Values == {s.comments[row.id]};
      } else if row.kind.ImportComment? && row.overrideReason.None? {
        assert s.comments[row.id] == ImportedItem(row.id, row.at, row);
        assert s.comments.Values == {s.comments[row.id]};
      }
    }
  }

  lemma {:induction false} PairCollects(p: Event, row: Event)
    requires IsPreviousOf(Some(p), row)
    requires Fold([p, row]) == FoldStep(FoldStep(START, p), row)
    requires Previous([p, row], row) == Some(p) && Previous([p, row], p) == None && Previous([p], p) == None
    ensures forall i :: i in Collected([p, row]) <==> SingleItem(Some(p), row) == Some(i)
  {
    assert HistoryItem(None, p) == None;
    hide Fold, Previous, OwnItem, HistoryItem, SingleItem;
    var history := if row.overrideReason.Some? then [p] else [p, row];
    var items := if row.overrideReason.Some? then [OverrideItem(row)] else [];
    assert Fold([p, row]) == FoldState(items, map[], map[], history);
    forall i
      ensures i in Collected([p, row]) <==> SingleItem(Some(p), row) == Some(i)
    {
      PairMember(p, row, i, items, history);
    }
  }

  lemma {:induction false} PairMember(p: Event, row: Event, i: Item, items: seq<Item>, history: seq<Event>)
    requires IsPreviousOf(Some(p), row)
    requires history == if row.overrideReason.Some? then [p] else [p, row]
    requires items == if row.overrideReason.Some? then [OverrideItem(row)] else []
    requires Fold([p, row]) == FoldState(items, map[], map[], history)
    requires Previous([p, row], row) == Some(p) && Previous([p, row], p) == None && Previous([p], p) == None
    requires HistoryItem(None, p) == None
    ensures i in Collected([p, row]) <==> SingleItem(Some(p), row) == Some(i)
  {
    hide Fold, Previous, OwnItem, HistoryItem;
    assert i in Collected([p, row]) <==> i in items || FromHistory(history, history, i);
    assert [p] + [] == [p] && [p] + [row] == [p, row] && [row] + [] == [row];
    FromHistoryCons(history, p, history[1..], i);
    if row.overrideReason.None? {
      FromHistoryCons(history, row, [], i);
    }
  }

  // ------------------------------------------------------------- one page

  /** A page shows a nonempty run of candidates' items, and its cursor is the last of that run. */
  ghost predicate IsPage(view: seq<Event>, watermark: nat, limit: nat, c: Option<Cursor>, page: Page) {
    exists k: nat :: Shows(view, watermark, After(Rows(view), c), limit, page, k)
  }

  ghost predicate Shows(view: seq<Event>, watermark: nat, rows: seq<Event>, limit: nat, page: Page, k: nat) {
    && k <= |rows|
    && page.items == ItemsOf(view, rows[..k]) && |page.items| <= limit
    && (page.next.None? ==> k == |rows|)
    && (page.next.Some? ==> k >= 1 && page.next.value == CursorAt(watermark, rows[k - 1]))
  }

  function CursorAt(watermark: nat, row: Event): Cursor {
    Cursor(watermark, ActivityAt(row), row.id)
  }

  lemma {:induction false} RowInputIsSound(view: seq<Event>, e: Event)
    requires IdsAscending(view) && e in view
    ensures IsPreviousOf(RowPrevious(view, e), RowEvent(view, e)) && RowEvent(view, e).id == e.id >= 1
    ensures RowInput(view, e) == InputOf(RowPrevious(view, e), RowEvent(view, e))
    ensures DistinctIds(RowInput(view, e))
  {
    var k :| 0 <= k < |view| && view[k] == e;
    if e.kind.ImportHistory? {
      var p := Previous(view, e);
      if p.Some? && p.value.id == e.id { SameIdSameEvent(view, p.value, e); }
      if p.Some? { var m :| 0 <= m < |view| && view[m] == p.value; }
    }
  }

  /** A candidate's item carries the candidate's own number and timeline time. */
  lemma {:induction false} RowItemStamp(view: seq<Event>, e: Event)
    ensures RowItem(view, e).Some? ==> ItemStamp(RowItem(view, e).value) == RowStamp(e)
  {}

  function Named(items: seq<Item>, id: nat): seq<Item> {
    if items == [] then []
    else Named(items[..|items| - 1], id) + (if items[|items| - 1].id == id then [items[|items| - 1]] else [])
  }

  lemma {:induction false} NamedIsSingle(items: seq<Item>, id: nat, o: Option<Item>)
    requires Descending(items, ItemStamp) && forall i :: i in items <==> o == Some(i)
    requires o.Some? ==> o.value.id == id
    ensures items == Append([], o) && Named(items, id) == items
  {
    SortedIsUnique(items, Append([], o), ItemStamp);
    assert items[..0] == [];
    if o.Some? { assert Named(items, id) == Named([], id) + items; }
  }

  /** The last item shown comes from some earlier candidate, with nothing after it. */
  lemma {:induction false} LastShown(view: seq<Event>, rows: seq<Event>, n: nat) returns (k: nat)
    requires n <= |rows| && ItemsOf(view, rows[..n]) != []
    ensures 1 <= k <= n && ItemsOf(view, rows[..k]) == ItemsOf(view, rows[..n])
    ensures var items := ItemsOf(view, rows[..n]); RowItem(view, rows[k - 1]) == Some(items[|items| - 1])
    decreases n
  {
    assert rows[..n][..n - 1] == rows[..n - 1];
    if RowItem(view, rows[n - 1]).Some? { k := n; } else { k := LastShown(view, rows, n - 1); }
  }

  lemma {:induction false} ItemsOfSnoc(view: seq<Event>, rows: seq<Event>, n: nat)
    requires n < |rows|
    ensures ItemsOf(view, rows[..n + 1]) == Append(ItemsOf(view, rows[..n]), RowItem(view, rows[n]))
  {
    assert rows[..n + 1][..n] == rows[..n];
  }

  /** `project` on one candidate, reduced to the item named after it. */
  method ProjectRow(view: seq<Event>, e: Event) returns (projected: seq<Item>)
    requires IdsAscending(view) && e in view
    ensures projected == Append([], RowItem(view, e)) && Named(projected, e.id) == projected
  {
    RowInputIsSound(view, e);
    InputCollects(RowPrevious(view, e), RowEvent(view, e));
    projected := Project(RowInput(view, e));
    RowItemStamp(view, e);
    NamedIsSingle(projected, e.id, RowItem(view, e));
  }

  /** The bounded candidate query: `limit n` rows below the cursor. */
  function Query(view: seq<Event>, c: Option<Cursor>, n: nat): seq<Event> {
    var rows := After(Rows(view), c);
    if |rows| <= n then rows else rows[..n]
  }

  /** The page-filling loop: items until the limit is passed, or the end of the batch. */
  method Fill(view: seq<Event>, watermark: nat, candidates: seq<Event>, limit: nat) returns (page: Page)
    requires IdsAscending(view) && (forall e <- candidates :: e in view) && 1 <= limit
    ensures exists k :: 0 <= k <= |candidates| && Filled(view, watermark, candidates, limit, page, k)
  {
    hide RowItem, ItemsOf, IdsAscending;
    var items: seq<Item> := [];
    assert ItemsOf(view, candidates[..0]) == [] by { NoItems(view, candidates); }
    for i := 0 to |candidates|
      invariant items == ItemsOf(view, candidates[..i]) && |items| <= limit
    {
      var e := candidates[i];
      var projected := ProjectRow(view, e);
      ItemsOfSnoc(view, candidates, i);
      ghost var before := items;
      for j := 0 to |projected|
        invariant items == before + projected[..j] && |items| <= limit
      {
        if projected[j].id != e.id { continue; }
        if |items| == limit {
          var last := items[|items| - 1];
          page := Page(items, Some(Cursor(watermark, last.at, last.id)));
          CutHere(view, watermark, candidates, limit, i, page);
          return;
        }
        items := items + [projected[j]];
      }
      assert projected[..|projected|] == projected;
    }
    page := Page(items, None);
    assert Filled(view, watermark, candidates, limit, page, |candidates|);
  }

  ghost predicate Filled(view: seq<Event>, watermark: nat, candidates: seq<Event>, limit: nat, page: Page, k: nat) {
    && k <= |candidates|
    && page.items == ItemsOf(view, candidates[..k]) && |page.items| <= limit
    && (page.next.None? ==> k == |candidates|)
    && (page.next.Some? ==> k >= 1 && page.next.value == CursorAt(watermark, candidates[k - 1]))
  }

  lemma {:induction false} NoItems(view: seq<Event>, rows: seq<Event>)
    ensures ItemsOf(view, rows[..0]) == []
  {
    assert rows[..0] == [];
  }

  /** A full page ends at its last item, whose number and time are the candidate's. */
  lemma {:induction false} CutHere(view: seq<Event>, watermark: nat, candidates: seq<Event>, limit: nat, i: nat, page: Page)
    requires i < |candidates| && 1 <= limit == |page.items|
    requires page.items == ItemsOf(view, candidates[..i])
    requires var last := page.items[|page.items| - 1]; page.next == Some(Cursor(watermark, last.at, last.id))
    ensures exists k :: 0 <= k <= |candidates| && Filled(view, watermark, candidates, limit, page, k)
  {
    hide RowItem;
    var k := LastShown(view, candidates, i);
    RowItemStamp(view, candidates[k - 1]);
    assert Filled(view, watermark, candidates, limit, page, k);
  }

  /** `read`: one page of at most `limit` items, fenced at the cursor's watermark. */
  method Read(log: seq<Event>, limit: nat, c: Option<Cursor>) returns (page: Page)
    requires IdsAscending(log) && 1 <= limit
    ensures var watermark := if c.Some? then c.value.watermark else NewestId(log);
            IsPage(Upto(log, watermark), watermark, limit, c, page)
  {
    hide IdsAscending, Upto, After, Rows, IsRow, RowItem, ItemsOf;
    var watermark := if c.Some? then c.value.watermark else NewestId(log);
    var view := Upto(log, watermark);
    UptoAscends(log, watermark);
    var batch := if limit + 1 > 64 then limit + 1 else 64;
    if batch > MAX_CANDIDATES { batch := MAX_CANDIDATES; }
    ghost var rows := After(Rows(view), c);
    var candidates := Query(view, c, batch + 1);
    var more := |candidates| > batch;
    if more { candidates := candidates[..batch]; }
    assert candidates == rows[..|candidates|];
    RowsAreEvents(view, c);
    Prefix(view, rows, candidates);
    page := Fill(view, watermark, candidates, limit);
    ghost var filled := page;
    if page.next.None? && more && |candidates| > 0 {
      var last := candidates[|candidates| - 1];
      page := page.(next := Some(Cursor(watermark, ActivityAt(last), last.id)));
    }
    FinishPage(view, watermark, rows, candidates, limit, filled, page);
  }

  lemma {:induction false} Prefix(view: seq<Event>, rows: seq<Event>, candidates: seq<Event>)
    requires candidates <= rows && forall e <- rows :: e in view
    ensures forall e <- candidates :: e in view
  {
    assert forall e <- candidates :: e in rows;
  }

  /** A page without a cut ends the batch: its cursor is the last candidate when more rows exist. */
  lemma {:induction false} FinishPage(view: seq<Event>, watermark: nat, rows: seq<Event>, candidates: seq<Event>, limit: nat,
                                      filled: Page, page: Page)
    requires candidates <= rows
    requires exists k :: 0 <= k <= |candidates| && Filled(view, watermark, candidates, limit, filled, k)
    requires page.items == filled.items
    requires page.next ==
             if filled.next.None? && |rows| > |candidates| > 0 then Some(CursorAt(watermark, candidates[|candidates| - 1]))
             else filled.next
    requires candidates == [] ==> rows == []
    ensures exists k: nat :: Shows(view, watermark, rows, limit, page, k)
  {
    hide ItemsOf;
    var k :| 0 <= k <= |candidates| && Filled(view, watermark, candidates, limit, filled, k);
    assert candidates[..k] == rows[..k];
    assert Shows(view, watermark, rows, limit, page, k);
  }

  /** `coalesce(max(id),0)`. */
  function NewestId(log: seq<Event>): nat {
    if log == [] then 0 else log[|log| - 1].id
  }

  lemma {:induction false} UptoAscends(log: seq<Event>, watermark: nat)
    requires IdsAscending(log)
    ensures IdsAscending(Upto(log, watermark))
    ensures forall e <- Upto(log, watermark) :: e in log && e.id <= watermark
  {
    if log != [] {
      var front := log[..|log| - 1];
      UptoAscends(front, watermark);
      var r := Upto(front, watermark);
      forall k | 0 <= k < |r|
        ensures r[k].id < log[|log| - 1].id
      {
        assert r[k] in front;
      }
    }
  }

  lemma {:induction false} FilterMembers(view: seq<Event>, log: seq<Event>)
    requires IdsAscending(log)
    ensures forall e :: e in Filter(view, log) <==> e in log && IsRow(view, e)
    ensures DistinctKeys(Filter(view, log), RowStamp)
  {
    hide IsRow;
    if log != [] {
      FilterMembers(view, log[1..]);
      assert log == [log[0]] + log[1..];
      var rest := Filter(view, log[1..]);
      forall k | 0 <= k < |rest|
        ensures rest[k].id != log[0].id
      {
        assert rest[k] in rest;
        assert rest[k] in log[1..];
      }
    }
  }

  lemma {:induction false} RowsSorted(view: seq<Event>)
    requires IdsAscending(view)
    ensures Descending(Rows(view), RowStamp)
    ensures forall e :: e in Rows(view) <==> e in view && IsRow(view, e)
  {
    hide IsRow;
    FilterMembers(view, view);
    SortSorts(Filter(view, view), RowStamp);
  }

  lemma {:induction false} AfterIsSuffix(rows: seq<Event>, c: Option<Cursor>) returns (n: nat)
    ensures n <= |rows| && After(rows, c) == rows[n..]
    decreases |rows|
  {
    if c.None? || rows == [] || Later(Stamp(c.value.at, c.value.id), RowStamp(rows[0])) {
      n := 0;
    } else {
      n := AfterIsSuffix(rows[1..], c);
      n := n + 1;
      assert rows[1..][n - 1..] == rows[n..];
    }
  }

  lemma {:induction false} RowsAreEvents(view: seq<Event>, c: Option<Cursor>)
    requires IdsAscending(view)
    ensures forall e <- After(Rows(view), c) :: e in view
  {
    hide IsRow;
    RowsSorted(view);
    var n := AfterIsSuffix(Rows(view), c);
  }
}
