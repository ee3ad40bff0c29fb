/**
 * `project` of internal/activity/timeline.go: the fold of a list of events to
 * timeline items, beside the pointwise reading of the same log that the paged
 * SQL lookups make.
 */
module ActivityProjection {
  import opened Wrappers
  import opened NewestFirst
  import opened ActivityEvents
  import opened ActivityComments

  // ------------------------------------------------------------ the fold

  const ZERO_ITEM := Item(0, 0, CommentItem, Principal(""), None, [], None)

  function Digits(n: nat): string {
    if n < 10 then [('0' as int + n) as char]
    else Digits(n / 10) + [('0' as int + n % 10) as char]
  }

  /** The fold's grouping key of an imported comment. */
  function FoldKey(e: Event): string {
    if e.payload.recordId == "" then Digits(e.id) else e.payload.source + ":" + e.payload.recordId
  }

  function OverrideItem(e: Event): Item {
    Item(e.id, e.at, ChangeItem, Principal(e.actor), None, [], e.overrideReason)
  }

  function CommentItemOf(e: Event, body: string): Item {
    Item(e.id, e.at, CommentItem, Principal(e.actor), Some(body), [], None)
  }

  function ImportedItem(id: nat, at: int, latest: Event): Item {
    Item(id, at, CommentItem, Classic(latest.payload.source, latest.payload.record),
         Some(latest.payload.body), [], None)
  }

  /** Items that depend on their own event alone. */
  function OwnItem(e: Event): Option<Item> {
    var item := Item(e.id, e.at, ChangeItem, Principal(e.actor), None, [], None);
    match e.kind
    case EntryRefused => Some(item.(body := Some(e.payload.body)))
    case NodeCreated => Some(item.(typ := CreatedItem))
    case ImportNodeCreated =>
      Some(item.(typ := CreatedItem, at := ActivityAt(e),
                 author := Classic(e.payload.source, e.payload.record)))
    case NodeKindChanged =>
      if e.kindFrom == "" || e.kindTo == "" || e.kindFrom == e.kindTo then None
      else Some(item.(changes := [FieldChange(KindField, Some(e.kindFrom), Some(e.kindTo))]))
    case AutopilotRetained => Some(item)
    case AutopilotChanged => Some(item.(changes := Diff(e.before, e.after)))
    case AutopilotSkipped => Some(item.(changes := Diff(e.before, e.after)))
    case AutopilotDerived => Some(item.(changes := Diff(e.before, e.after)))
    case NodeUpdated => ChangedItem(e, item)
    case NodeMoved => ChangedItem(e, item)
    case AutopilotUndone => ChangedItem(e, item)
    case _ => None
  }

  function ChangedItem(e: Event, item: Item): Option<Item> {
    var changes := Diff(e.before, e.after);
    if changes == [] then None else Some(item.(changes := changes))
  }

  function HistoryItem(previous: Option<Fields>, e: Event): Option<Item> {
    if e.payload.snapshot.None? || previous.None? then None
    else
      var changes := Diff(previous.value, e.payload.snapshot.value);
      if changes == [] then None
      else Some(Item(e.id, e.at, ChangeItem, Classic(e.payload.source, e.payload.record), None, changes, None))
  }

  datatype FoldState = FoldState(
    items: seq<Item>, comments: map<nat, Item>, imports: map<string, nat>, history: seq<Event>)

  const START := FoldState([], map[], map[], [])

  function Append(items: seq<Item>, o: Option<Item>): seq<Item> {
    match o
    case None => items
    case Some(i) => items + [i]
  }

  function FoldComment(comments: map<nat, Item>, e: Event): map<nat, Item> {
    var key := e.payload.commentId;
    if e.kind.CommentCreated? then comments[e.id := CommentItemOf(e, e.payload.body)]
    else if e.kind.CommentDeleted? then comments - {key}
    else if key in comments then comments[key := comments[key].(body := Some(e.payload.body))]
    else comments
  }

  function FoldImport(s: FoldState, e: Event): FoldState {
    var key := FoldKey(e);
    if key in s.imports then
      var prior := if s.imports[key] in s.comments then s.comments[s.imports[key]] else ZERO_ITEM;
      s.(comments := s.comments[prior.id := ImportedItem(prior.id, prior.at, e)])
    else
      s.(imports := s.imports[key := e.id], comments := s.comments[e.id := ImportedItem(e.id, e.at, e)])
  }

  function FoldStep(s: FoldState, e: Event): FoldState {
    if e.overrideReason.Some? then s.(items := s.items + [OverrideItem(e)])
    else if IsCommentKind(e.kind) then s.(comments := FoldComment(s.comments, e))
    else if e.kind.ImportComment? then FoldImport(s, e)
    else if e.kind.ImportHistory? then s.(history := s.history + [e])
    else s.(items := Append(s.items, OwnItem(e)))
  }

  function Fold(evs: seq<Event>): FoldState {
    if evs == [] then START else FoldStep(Fold(evs[..|evs| - 1]), evs[|evs| - 1])
  }

  lemma {:induction false} FoldSnoc(evs: seq<Event>, e: Event)
    ensures Fold(evs + [e]) == FoldStep(Fold(evs), e)
  {
    assert (evs + [e])[..|evs|] == evs;
  }

  // ---------------------------------------------- previous snapshot lookup

  predicate Precedes(r: Event, e: Event) {
    HasSnapshot(r) && r.payload.source == e.payload.source && Later(EventStamp(e), EventStamp(r))
  }

  /** `ORDER BY r.at DESC, r.id DESC LIMIT 1` below (e.at, e.id), within one source. */
  function Previous(log: seq<Event>, e: Event): (r: Option<Event>)
    ensures r.Some? ==> r.value in log && Precedes(r.value, e)
    ensures r.None? ==> forall x <- log :: !Precedes(x, e)
    ensures r.Some? ==> forall x <- log :: Precedes(x, e) ==> !Later(EventStamp(x), EventStamp(r.value))
  {
    if log == [] then None
    else
      var x := log[|log| - 1];
      var p := Previous(log[..|log| - 1], e);
      if Precedes(x, e) && (p.None? || Later(EventStamp(x), EventStamp(p.value))) then Some(x) else p
  }

  function SnapshotOf(o: Option<Event>): Option<Fields> {
    match o
    case None => None
    case Some(e) => e.payload.snapshot
  }

  /** Every item the fold of `evs` produces, before sorting. */
  ghost function Collected(evs: seq<Event>): set<Item> {
    var s := Fold(evs);
    (set i | i in s.items)
    + s.comments.Values
    + (set e | e in s.history && HistoryItem(SnapshotOf(Previous(s.history, e)), e).Some?
         :: HistoryItem(SnapshotOf(Previous(s.history, e)), e).value)
  }

  ghost predicate IsTimeline(items: seq<Item>, members: set<Item>) {
    && Descending(items, ItemStamp)
    && forall i :: i in items <==> i in members
  }

  // ------------------------------------------------- project, as the code runs it

  ghost predicate FromHistory(history: seq<Event>, done: seq<Event>, i: Item) {
    exists e :: e in done && HistoryItem(SnapshotOf(Previous(history, e)), e) == Some(i)
  }

  /** The `previous` map of the history loop holds, per source, what `Previous` finds. */
  lemma {:induction false} LastSnapshotIsPrevious(history: seq<Event>, sorted: seq<Event>, j: nat)
    requires j < |sorted| && Descending(sorted, EventStamp)
    requires forall e :: e in sorted <==> e in history
    ensures forall r <- history :: Precedes(r, sorted[j]) ==> r in sorted[j + 1..]
    ensures forall r <- sorted[j + 1..] :: HasSnapshot(r) && r.payload.source == sorted[j].payload.source ==>
                                             Precedes(r, sorted[j])
  {
    forall r | r in history && Precedes(r, sorted[j])
      ensures r in sorted[j + 1..]
    {
      var k :| 0 <= k < |sorted| && sorted[k] == r;
      assert j < k;
      assert sorted[j + 1..][k - j - 1] == r;
    }
    forall r | r in sorted[j + 1..] && HasSnapshot(r) && r.payload.source == sorted[j].payload.source
      ensures Precedes(r, sorted[j])
    {
      var k :| 0 <= k < |sorted[j + 1..]| && sorted[j + 1..][k] == r;
      assert Later(EventStamp(sorted[j]), EventStamp(sorted[j + 1 + k]));
    }
  }

  /** `prior` holds for each source the newest snapshot in `done` (which is sorted newest first). */
  ghost predicate HoldsNewest(prior: map<string, Event>, done: seq<Event>) {
    && (forall src :: src in prior ==>
          prior[src] in done && HasSnapshot(prior[src]) && prior[src].payload.source == src)
    && (forall r :: r in done && HasSnapshot(r) ==>
          r.payload.source in prior && !Later(EventStamp(r), EventStamp(prior[r.payload.source])))
  }

  lemma {:induction false} PriorIsPrevious(history: seq<Event>, sorted: seq<Event>, j: nat, prior: map<string, Event>)
    requires j < |sorted| && Descending(sorted, EventStamp) && DistinctKeys(history, EventStamp)
    requires forall e :: e in sorted <==> e in history
    requires HoldsNewest(prior, sorted[j + 1..])
    ensures Previous(history, sorted[j]) ==
            if sorted[j].payload.source in prior then Some(prior[sorted[j].payload.source]) else None
  {
    LastSnapshotIsPrevious(history, sorted, j);
    var e := sorted[j];
    var found := Previous(history, e);
    assert forall r <- sorted[j + 1..] :: r in sorted;
    if e.payload.source in prior {
      var p := prior[e.payload.source];
      assert Precedes(p, e);
      assert p in history;
      assert found.Some?;
      var a :| 0 <= a < |history| && history[a] == p;
      var b :| 0 <= b < |history| && history[b] == found.value;
      assert a == b;
    }
  }

  /** What the walk has produced once it has passed the snapshots in `done`. */
  ghost predicate Walked(history: seq<Event>, done: seq<Event>, prior: map<string, Event>, items: seq<Item>) {
    && HoldsNewest(prior, done)
    && (forall i :: i in items <==> FromHistory(history, done, i))
    && IdsFrom(items, done)
  }

  ghost predicate HistorySorted(history: seq<Event>, sorted: seq<Event>) {
    && DistinctKeys(history, EventStamp)
    && Descending(sorted, EventStamp)
    && (forall e :: e in sorted <==> e in history)
    && (forall e <- history :: e.kind.ImportHistory?)
  }

  ghost predicate IdsFrom(items: seq<Item>, events: seq<Event>) {
    && (forall a, b :: 0 <= a < b < |items| ==> items[a].id != items[b].id)
    && (forall i <- items :: exists e <- events :: e.id == i.id)
  }

  lemma {:induction false} AppendKeepsIds(items: seq<Item>, o: Option<Item>, e: Event, rest: seq<Event>)
    requires IdsFrom(items, rest) && (forall i <- items :: i.id != e.id)
    requires o.Some? ==> o.value.id == e.id
    ensures IdsFrom(Append(items, o), [e] + rest)
  {
    forall i | i in Append(items, o)
      ensures exists x <- [e] + rest :: x.id == i.id
    {
      if i in items {
        var x :| x in rest && x.id == i.id;
        assert x in [e] + rest;
      } else {
        assert e in [e] + rest && e.id == i.id;
      }
    }
  }

  lemma {:induction false} WalkItems(history: seq<Event>, sorted: seq<Event>, j: nat, prior: map<string, Event>, items: seq<Item>)
    requires HistorySorted(history, sorted) && j < |sorted|
    requires Walked(history, sorted[j + 1..], prior, items)
    ensures var next := Append(items, HistoryItem(SnapshotOf(Previous(history, sorted[j])), sorted[j]));
            && (forall i :: i in next <==> FromHistory(history, sorted[j..], i))
            && IdsFrom(next, sorted[j..])
  {
    var e := sorted[j];
    var o := HistoryItem(SnapshotOf(Previous(history, e)), e);
    assert sorted[j..] == [e] + sorted[j + 1..];
    FreshId(history, sorted, j, items);
    AppendKeepsIds(items, o, e, sorted[j + 1..]);
    forall i
      ensures i in Append(items, o) <==> FromHistory(history, sorted[j..], i)
    {
      FromHistoryCons(history, e, sorted[j + 1..], i);
    }
  }

  /** The sorted history walk: one item per snapshot that changed since the one before it. */
  method ProjectHistory(history: seq<Event>) returns (items: seq<Item>)
    requires DistinctKeys(history, EventStamp)
    requires forall e <- history :: e.kind.ImportHistory?
    ensures forall i :: i in items <==> FromHistory(history, history, i)
    ensures IdsFrom(items, history)
  {
    SortSorts(history, EventStamp);
    var sorted := Sort(history, EventStamp);
    items := [];
    var prior: map<string, Event> := map[];
    var j := |sorted|;
    // Oldest first: the sequence is newest first, so the walk runs backwards.
    while j > 0
      invariant 0 <= j <= |sorted|
      invariant Walked(history, sorted[j..], prior, items)
    {
      j := j - 1;
      var e := sorted[j];
      PriorIsPrevious(history, sorted, j, prior);
      WalkItems(history, sorted, j, prior, items);
      if e.payload.snapshot.None? {
        assert sorted[j..] == [e] + sorted[j + 1..];
        continue;
      }
      if e.payload.source in prior {
        var changes := Diff(prior[e.payload.source].payload.snapshot.value, e.payload.snapshot.value);
        if changes != [] {
          items := items + [Item(e.id, e.at, ChangeItem, Classic(e.payload.source, e.payload.record), None, changes, None)];
        }
      }
      NewestSoFar(sorted, j, prior);
      prior := prior[e.payload.source := e];
    }
    assert sorted[0..] == sorted;
    assert forall i :: FromHistory(history, sorted, i) <==> FromHistory(history, history, i);
  }

  lemma {:induction false} FromHistoryCons(history: seq<Event>, e: Event, rest: seq<Event>, i: Item)
    ensures FromHistory(history, [e] + rest, i) <==>
            HistoryItem(SnapshotOf(Previous(history, e)), e) == Some(i) || FromHistory(history, rest, i)
  {
    assert forall x :: x in [e] + rest <==> x == e || x in rest;
  }

  lemma {:induction false} NewestSoFar(sorted: seq<Event>, j: nat, prior: map<string, Event>)
    requires j < |sorted| && Descending(sorted, EventStamp) && HasSnapshot(sorted[j])
    requires HoldsNewest(prior, sorted[j + 1..])
    ensures HoldsNewest(prior[sorted[j].payload.source := sorted[j]], sorted[j..])
  {
    assert sorted[j..] == [sorted[j]] + sorted[j + 1..];
    forall r | r in sorted[j + 1..]
      ensures Later(EventStamp(sorted[j]), EventStamp(r))
    {
      var k :| 0 <= k < |sorted[j + 1..]| && sorted[j + 1..][k] == r;
      assert r == sorted[j + 1 + k];
    }
  }

  lemma {:induction false} FreshId(history: seq<Event>, sorted: seq<Event>, j: nat, items: seq<Item>)
    requires j < |sorted| && Descending(sorted, EventStamp) && DistinctKeys(history, EventStamp)
    requires forall e :: e in sorted <==> e in history
    requires forall i <- items :: exists e <- sorted[j + 1..] :: e.id == i.id
    ensures forall i <- items :: i.id != sorted[j].id
  {
    forall i | i in items
      ensures i.id != sorted[j].id
    {
      var e :| e in sorted[j + 1..] && e.id == i.id;
      var k :| 0 <= k < |sorted[j + 1..]| && sorted[j + 1..][k] == e;
      assert e == sorted[j + 1 + k];
      assert Later(EventStamp(sorted[j]), EventStamp(e));
      assert e in history && sorted[j] in history;
    }
  }

  // ------------------------------------------------------- shape of the fold

  datatype Slot = DirectSlot | CommentSlot | HistorySlot

  /** Which of the fold's three collections an event feeds. */
  function SlotOf(e: Event): Slot {
    if e.overrideReason.Some? then DirectSlot
    else if IsCommentKind(e.kind) || e.kind.ImportComment? then CommentSlot
    else if e.kind.ImportHistory? then HistorySlot
    else DirectSlot
  }

  ghost predicate Named(evs: seq<Event>, id: nat, slot: Slot) {
    exists e <- evs :: e.id == id && SlotOf(e) == slot
  }

  ghost predicate Shape(s: FoldState, evs: seq<Event>) {
    && (forall i <- s.items :: Named(evs, i.id, DirectSlot))
    && (forall a, b :: 0 <= a < b < |s.items| ==> s.items[a].id != s.items[b].id)
    && (forall e <- s.history :: e in evs && SlotOf(e) == HistorySlot)
    && DistinctKeys(s.history, EventStamp)
    && (forall k :: k in s.comments ==> s.comments[k].id == k && (k == 0 || Named(evs, k, CommentSlot)))
  }

  lemma {:induction false} NamedSnoc(front: seq<Event>, e: Event)
    ensures forall id, slot :: Named(front, id, slot) ==> Named(front + [e], id, slot)
    ensures Named(front + [e], e.id, SlotOf(e))
  {
    assert forall x :: x in front + [e] <==> x in front || x == e;
    assert e in front + [e];
  }

  lemma {:induction false} FoldShape(evs: seq<Event>)
    requires DistinctIds(evs)
    ensures Shape(Fold(evs), evs)
  {
    if evs != [] {
      var n := |evs| - 1;
      var front, e := evs[..n], evs[n];
      FoldShape(front);
      NamedSnoc(front, e);
      assert evs == front + [e];
      assert forall x <- front :: x.id != e.id;
      StepShape(Fold(front), front, e);
    }
  }

  lemma {:induction false} NotNamed(front: seq<Event>, e: Event, id: nat, slot: Slot)
    requires Named(front, id, slot) && forall x <- front :: x.id != e.id
    ensures id != e.id
  {}

  lemma {:induction false} OwnItemNamesItself(e: Event)
    ensures OwnItem(e).Some? ==> OwnItem(e).value.id == e.id
  {}

  lemma {:induction false} StepShape(s: FoldState, front: seq<Event>, e: Event)
    requires Shape(s, front) && e.id != 0 && (forall x <- front :: x.id != e.id)
    ensures Shape(FoldStep(s, e), front + [e])
  {
    OwnItemNamesItself(e);
    hide OwnItem, FoldKey, Named;
    NamedSnoc(front, e);
    var next := FoldStep(s, e);
    if SlotOf(e) == DirectSlot {
      var o := if e.overrideReason.Some? then Some(OverrideItem(e)) else OwnItem(e);
      assert o.Some? ==> o.value.id == e.id;
      assert next.items == Append(s.items, o);
      forall i | i in s.items
        ensures i.id != e.id
      {
        NotNamed(front, e, i.id, DirectSlot);
      }
    } else if SlotOf(e) == CommentSlot {
      assert next.items == s.items && next.history == s.history;
    } else {
      assert next.history == s.history + [e];
    }
  }

  lemma {:induction false} SlotsAreDisjoint(evs: seq<Event>, id: nat, a: Slot, b: Slot)
    requires DistinctIds(evs) && Named(evs, id, a) && Named(evs, id, b)
    ensures a == b && id != 0
  {}

  ghost predicate AllIdsDistinct(items: seq<Item>) {
    forall a, b :: 0 <= a < b < |items| ==> items[a].id != items[b].id
  }

  lemma {:induction false} Disjoint(evs: seq<Event>, direct: seq<Item>, history: seq<Event>, historyItems: seq<Item>)
    requires DistinctIds(evs) && AllIdsDistinct(direct) && IdsFrom(historyItems, history)
    requires forall i <- direct :: Named(evs, i.id, DirectSlot)
    requires forall e <- history :: e in evs && SlotOf(e) == HistorySlot
    ensures AllIdsDistinct(direct + historyItems)
    ensures forall i <- direct + historyItems :: Named(evs, i.id, DirectSlot) || Named(evs, i.id, HistorySlot)
  {
    forall i | i in historyItems
      ensures Named(evs, i.id, HistorySlot)
    {
      var e :| e in history && e.id == i.id;
    }
    forall a, b | 0 <= a < |direct| && 0 <= b < |historyItems|
      ensures direct[a].id != historyItems[b].id
    {
      if direct[a].id == historyItems[b].id {
        SlotsAreDisjoint(evs, direct[a].id, DirectSlot, HistorySlot);
      }
    }
  }

  method FoldEvents(evs: seq<Event>)
    returns (items: seq<Item>, comments: map<nat, Item>, imports: map<string, nat>, history: seq<Event>)
    ensures FoldState(items, comments, imports, history) == Fold(evs)
  {
    items, comments, imports, history := [], map[], map[], [];
    for n := 0 to |evs|
      invariant FoldState(items, comments, imports, history) == Fold(evs[..n])
    {
      var e := evs[n];
      assert evs[..n + 1] == evs[..n] + [e];
      FoldSnoc(evs[..n], e);
      if e.overrideReason.Some? {
        items := items + [OverrideItem(e)];
        continue;
      }
      match e.kind {
        case CommentCreated =>
          comments := comments[e.id := CommentItemOf(e, e.payload.body)];
        case CommentDeleted =>
          comments := comments - {e.payload.commentId};
        case CommentUpdated =>
          if e.payload.commentId in comments {
            var prior := comments[e.payload.commentId];
            comments := comments[e.payload.commentId := prior.(body := Some(e.payload.body))];
          }
        case ImportComment =>
          var key := FoldKey(e);
          var item := ImportedItem(e.id, e.at, e);
          if key in imports {
            var prior := ZERO_ITEM;
            if imports[key] in comments { prior := comments[imports[key]]; }
            item := item.(id := prior.id, at := prior.at);
          } else {
            imports := imports[key := e.id];
          }
          comments := comments[item.id := item];
        case ImportHistory =>
          history := history + [e];
        case _ =>
          items := Append(items, OwnItem(e));
      }
    }
    assert evs[..|evs|] == evs;
  }

  /** The map is walked in no particular order; the final sort fixes it. */
  method AppendComments(listed: seq<Item>, comments: map<nat, Item>) returns (items: seq<Item>)
    requires AllIdsDistinct(listed) && (forall i <- listed :: i.id !in comments)
    requires forall k :: k in comments ==> comments[k].id == k
    ensures AllIdsDistinct(items)
    ensures forall i :: i in items <==> i in listed || (i.id in comments && comments[i.id] == i)
  {
    items := listed;
    var left := comments.Keys;
    while left != {}
      invariant left <= comments.Keys
      invariant AllIdsDistinct(items)
      invariant forall i <- items :: i.id !in left
      invariant forall i :: i in items <==> i in listed || (i.id in comments && i.id !in left && comments[i.id] == i)
      decreases left
    {
      var k :| k in left;
      items := items + [comments[k]];
      left := left - {k};
    }
  }

  /** `project`: whatever order the input has, the result is its items, newest first. */
  method Project(evs: seq<Event>) returns (items: seq<Item>)
    requires DistinctIds(evs)
    ensures IsTimeline(items, Collected(evs))
  {
    FoldShape(evs);
    var direct, comments, imports, history := FoldEvents(evs);
    var changes := ProjectHistory(history);
    Disjoint(evs, direct, history, changes);
    items := direct + changes;
    forall i | i in items
      ensures i.id !in comments
    {
      CommentsApart(evs, i.id);
    }
    items := AppendComments(items, comments);
    CollectedMembers(evs, direct, changes, comments, items);
    SortSorts(items, ItemStamp);
    items := Sort(items, ItemStamp);
  }

  lemma {:induction false} CommentsApart(evs: seq<Event>, id: nat)
    requires DistinctIds(evs) && Shape(Fold(evs), evs)
    requires Named(evs, id, DirectSlot) || Named(evs, id, HistorySlot)
    ensures id !in Fold(evs).comments
  {
    if id in Fold(evs).comments && Named(evs, id, CommentSlot) {
      var slot := if Named(evs, id, DirectSlot) then DirectSlot else HistorySlot;
      SlotsAreDisjoint(evs, id, slot, CommentSlot);
    }
  }

  lemma {:induction false} CollectedMembers(evs: seq<Event>, direct: seq<Item>, changes: seq<Item>, comments: map<nat, Item>,
                                           items: seq<Item>)
    requires Fold(evs).items == direct && Fold(evs).comments == comments && Shape(Fold(evs), evs)
    requires forall i :: i in changes <==> FromHistory(Fold(evs).history, Fold(evs).history, i)
    requires forall i :: i in items <==> i in direct + changes || (i.id in comments && comments[i.id] == i)
    ensures forall i :: i in items <==> i in Collected(evs)
  {
    forall i
      ensures i in items <==> i in Collected(evs)
    {
      if i in comments.Values {
        var k :| k in comments && comments[k] == i;
        assert i.id == k;
      }
      if i.id in comments && comments[i.id] == i { assert i in comments.Values; }
    }
  }
}
