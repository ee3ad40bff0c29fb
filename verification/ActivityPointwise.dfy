/**
 * The timeline read event by event, as the paged SQL does: each event is shown
 * through its newest revision, its first import or its previous snapshot. In
 * every log the comment lifecycle allows, this is the fold.
 */
module ActivityPointwise {
  import opened Wrappers
  import opened NewestFirst
  import opened ActivityEvents
  import opened ActivityComments
  import opened ActivityProjection

  /** The SQL grouping key of an imported comment: source and record id, or the event's own number. */
  function SqlKey(e: Event): (string, string) {
    (e.payload.source, if e.payload.recordId == "" then Digits(e.id) else e.payload.recordId)
  }

  function SameRecord(e: Event): Event -> bool {
    (f: Event) => f.kind.ImportComment? && SqlKey(f) == SqlKey(e)
  }

  /** The fold's grouping. */
  function SameFoldKey(e: Event): Event -> bool {
    (f: Event) => f.kind.ImportComment? && FoldKey(f) == FoldKey(e)
  }

  predicate IsFirst(log: seq<Event>, e: Event, same: Event -> bool) {
    forall f <- log :: same(f) ==> f.id >= e.id
  }

  predicate IsFirstImport(log: seq<Event>, e: Event) { IsFirst(log, e, SameRecord(e)) }

  predicate IsFirstFolded(log: seq<Event>, e: Event) { IsFirst(log, e, SameFoldKey(e)) }

  /** The fold and the SQL group imported comments alike. */
  ghost predicate KeysAgree(log: seq<Event>) {
    forall e <- log, f <- log :: e.kind.ImportComment? && f.kind.ImportComment? ==>
      (FoldKey(e) == FoldKey(f) <==> SqlKey(e) == SqlKey(f))
  }

  /** The item event `e` contributes to the timeline of `log`, if any, when `same` is its record. */
  function ItemBy(log: seq<Event>, e: Event, same: Event -> bool): Option<Item> {
    if e.overrideReason.Some? then Some(OverrideItem(e))
    else if e.kind.CommentCreated? then
      var revision := NewestRevision(log, e.id);
      if revision.None? then Some(CommentItemOf(e, e.payload.body))
      else if revision.value.kind.CommentDeleted? then None
      else Some(CommentItemOf(e, revision.value.payload.body))
    else if e.kind.CommentUpdated? || e.kind.CommentDeleted? then None
    else if e.kind.ImportComment? then
      if !IsFirst(log, e, same) then None
      else Some(ImportedItem(e.id, e.at, LastWhere(log, same).GetOr(e)))
    else if e.kind.ImportHistory? then HistoryItem(SnapshotOf(Previous(log, e)), e)
    else OwnItem(e)
  }

  /** The lookups' reading. */
  function PointItem(log: seq<Event>, e: Event): Option<Item> { ItemBy(log, e, SameRecord(e)) }

  /** The same with the fold's grouping of imports. */
  function FoldItem(log: seq<Event>, e: Event): Option<Item> { ItemBy(log, e, SameFoldKey(e)) }

  /** All items of a log, read pointwise. */
  ghost function PointItems(log: seq<Event>): set<Item> {
    set e | e in log && PointItem(log, e).Some? :: PointItem(log, e).value
  }

  ghost function FoldItems(log: seq<Event>): set<Item> {
    set e | e in log && FoldItem(log, e).Some? :: FoldItem(log, e).value
  }

  // ------------------------------------------ the fold agrees, step by step

  /** `comments` holds exactly the comments the reading `p` shows. */
  ghost predicate CommentsMatch(comments: map<nat, Item>, log: seq<Event>, p: Event -> Option<Item>) {
    && (forall f <- log :: SlotOf(f) == CommentSlot && p(f).Some? ==>
          f.id in comments && comments[f.id] == p(f).value)
    && (forall k :: k in comments ==>
          exists f <- log :: f.id == k && SlotOf(f) == CommentSlot && p(f).Some?)
  }

  /** The pointwise reading of one log. */
  ghost function Reading(log: seq<Event>): Event -> Option<Item> {
    (e: Event) => FoldItem(log, e)
  }

  ghost predicate ImportsMatch(imports: map<string, nat>, log: seq<Event>) {
    && (forall f <- log :: f.kind.ImportComment? ==> FoldKey(f) in imports)
    && (forall key :: key in imports ==>
          exists f <- log :: f.kind.ImportComment? && FoldKey(f) == key && IsFirstFolded(log, f) && imports[key] == f.id)
  }

  lemma {:induction false} PrefixFollow(front: seq<Event>, e: Event)
    requires RevisionsFollow(front + [e])
    ensures RevisionsFollow(front)
  {
    var log, n := front + [e], |front|;
    forall j | 0 <= j < n && IsRevision(front[j])
      ensures exists i :: 0 <= i < n && RevisionOf(front, i, j)
    {
      assert log[j] == front[j];
      var i :| 0 <= i < |log| && RevisionOf(log, i, j);
      assert RevisionOf(front, i, j);
    }
  }

  lemma {:induction false} PrefixLifecycle(front: seq<Event>, e: Event)
    requires Lifecycle(front + [e])
    ensures Lifecycle(front) && IdsAscending(front) && forall f <- front :: f.id < e.id
  {
    var log, n := front + [e], |front|;
    PrefixFollow(front, e);
    hide RevisionsFollow, MayOverride;
    assert forall i :: 0 <= i < n ==> front[i] == log[i];
    assert log[n] == e;
    assert forall f <- front :: f in log;
    assert DeletionsLast(front) by {
      forall i, j | 0 <= i < j < n && front[i].kind.CommentDeleted? && IsRevision(front[j])
        ensures front[i].payload.commentId != front[j].payload.commentId
      {
        assert log[i] == front[i] && log[j] == front[j];
      }
    }
    hide DeletionsLast;
    forall i, j | 0 <= i < j < n
      ensures front[i].id < front[j].id
    {
      assert log[i] == front[i] && log[j] == front[j];
    }
  }

  /** Appending `e` re-reads an earlier comment only when `e` revises or re-imports it. */
  lemma {:induction false} AppendedReads(front: seq<Event>, e: Event, f: Event)
    requires f in front && f.id < e.id && SlotOf(f) == CommentSlot
    ensures IsRevision(f) ==> FoldItem(front + [e], f) == FoldItem(front, f)
    ensures !Revises(f.id)(e) && f.kind.CommentCreated? ==> FoldItem(front + [e], f) == FoldItem(front, f)
    ensures Revises(f.id)(e) && f.kind.CommentCreated? ==>
              FoldItem(front + [e], f) ==
              if e.kind.CommentDeleted? then None else Some(CommentItemOf(f, e.payload.body))
    ensures !SameFoldKey(f)(e) && f.kind.ImportComment? ==> FoldItem(front + [e], f) == FoldItem(front, f)
    ensures SameFoldKey(f)(e) && f.kind.ImportComment? ==>
              FoldItem(front + [e], f) ==
              if IsFirstFolded(front, f) then Some(ImportedItem(f.id, f.at, e)) else None
  {
    var log := front + [e];
    assert log[..|log| - 1] == front;
    assert forall x :: x in log <==> x in front || x == e;
    assert IsFirstFolded(log, f) <==> IsFirstFolded(front, f);
  }

  lemma {:induction false} SameIdSameEvent(log: seq<Event>, a: Event, b: Event)
    requires IdsAscending(log) && a in log && b in log && a.id == b.id
    ensures a == b
  {
    var i :| 0 <= i < |log| && log[i] == a;
    var j :| 0 <= j < |log| && log[j] == b;
    assert i == j;
  }

  /** A log grown by one event: numbers still identify events, and at most `target` reads differently. */
  ghost predicate Grown(front: seq<Event>, e: Event, target: Event, p: Event -> Option<Item>, q: Event -> Option<Item>) {
    && (forall a <- front + [e], b <- front + [e] :: a.id == b.id ==> a == b)
    && e !in front
    && (forall f <- front :: SlotOf(f) == CommentSlot && f != target ==> q(f) == p(f))
    && (e == target || SlotOf(e) != CommentSlot || q(e).None?)
  }

  /** Updating or removing the one entry that reads differently keeps the map exact. */
  lemma {:induction false} MatchUpdate(front: seq<Event>, e: Event, target: Event, p: Event -> Option<Item>, q: Event -> Option<Item>,
                    comments: map<nat, Item>, next: map<nat, Item>)
    requires CommentsMatch(comments, front, p) && Grown(front, e, target, p, q)
    requires target in front + [e] && SlotOf(target) == CommentSlot
    requires next == if q(target).Some? then comments[target.id := q(target).value] else comments - {target.id}
    ensures CommentsMatch(next, front + [e], q)
  {
    hide SlotOf;
    var log := front + [e];
    assert forall x :: x in log <==> x in front || x == e;
    forall f | f in log && SlotOf(f) == CommentSlot && q(f).Some?
      ensures f.id in next && next[f.id] == q(f).value
    {
      if f.id == target.id { assert f == target; } else { assert f in front; }
    }
    forall k | k in next
      ensures exists f <- log :: f.id == k && SlotOf(f) == CommentSlot && q(f).Some?
    {
      if k == target.id { assert target in log; } else {
        var f :| f in front && f.id == k && SlotOf(f) == CommentSlot && p(f).Some?;
        assert f in log;
      }
    }
  }

  lemma {:induction false} MatchSame(front: seq<Event>, e: Event, p: Event -> Option<Item>, q: Event -> Option<Item>,
                                     comments: map<nat, Item>)
    requires CommentsMatch(comments, front, p) && SlotOf(e) != CommentSlot
    requires forall f <- front :: SlotOf(f) == CommentSlot ==> q(f) == p(f)
    ensures CommentsMatch(comments, front + [e], q)
  {
    var log := front + [e];
    assert forall x :: x in log <==> x in front || x == e;
    forall k | k in comments
      ensures exists f <- log :: f.id == k && SlotOf(f) == CommentSlot && q(f).Some?
    {
      var f :| f in front && f.id == k && SlotOf(f) == CommentSlot && p(f).Some?;
      assert f in log;
    }
  }

  /** The live comment a revision names; it is shown until that revision. */
  lemma {:induction false} RevisedComment(front: seq<Event>, e: Event) returns (c: Event)
    requires Lifecycle(front + [e]) && IsRevision(e)
    ensures c in front && c.kind.CommentCreated? && c.id == e.payload.commentId
    ensures c.overrideReason.None? && FoldItem(front, c).Some?
  {
    var log, n := front + [e], |front|;
    assert log[n] == e;
    var i :| 0 <= i < |log| && RevisionOf(log, i, n);
    c := front[i];
    assert log[i] == c && c in log;
    forall k | 0 <= k < n && Revises(c.id)(front[k])
      ensures !front[k].kind.CommentDeleted?
    {
      assert log[k] == front[k];
    }
  }

  /** A new comment has no revision yet. */
  lemma {:induction false} NotYetRevised(front: seq<Event>, e: Event)
    requires Lifecycle(front + [e]) && e.kind.CommentCreated?
    ensures FoldItem(front + [e], e) == Some(CommentItemOf(e, e.payload.body))
  {
    var log, n := front + [e], |front|;
    assert log[n] == e && e in log;
    forall j | 0 <= j < |log|
      ensures !Revises(e.id)(log[j])
    {
      if IsRevision(log[j]) {
        var i :| 0 <= i < |log| && RevisionOf(log, i, j);
        assert log[i].id != log[n].id;
      }
    }
  }

  lemma {:induction false} GrownBy(front: seq<Event>, e: Event, target: Event)
    requires Lifecycle(front + [e])
    requires forall f <- front :: SlotOf(f) == CommentSlot && f != target ==>
               !Revises(f.id)(e) && (f.kind.ImportComment? ==> !SameFoldKey(f)(e))
    requires e == target || SlotOf(e) != CommentSlot || FoldItem(front + [e], e).None?
    ensures Grown(front, e, target, Reading(front), Reading(front + [e]))
  {
    PrefixLifecycle(front, e);
    forall a, b | a in front + [e] && b in front + [e] && a.id == b.id
      ensures a == b
    {
      SameIdSameEvent(front + [e], a, b);
    }
    forall f | f in front && SlotOf(f) == CommentSlot && f != target
      ensures Reading(front + [e])(f) == Reading(front)(f)
    {
      AppendedReads(front, e, f);
    }
  }

  lemma {:induction false} Shown(comments: map<nat, Item>, log: seq<Event>, f: Event)
    requires CommentsMatch(comments, log, Reading(log))
    requires f in log && SlotOf(f) == CommentSlot && FoldItem(log, f).Some?
    ensures f.id in comments && comments[f.id] == FoldItem(log, f).value
  {
    assert Reading(log)(f).Some?;
  }

  lemma {:induction false} CommentStep(front: seq<Event>, e: Event, comments: map<nat, Item>)
    requires Lifecycle(front + [e]) && IsCommentKind(e.kind)
    requires CommentsMatch(comments, front, Reading(front))
    ensures CommentsMatch(FoldComment(comments, e), front + [e], Reading(front + [e]))
  {
    hide Lifecycle, CommentsMatch, Grown;
    PrefixLifecycle(front, e);
    assert e in front + [e];
    var target := e;
    if IsRevision(e) {
      target := RevisedComment(front, e);
      Shown(comments, front, target);
      AppendedReads(front, e, target);
    } else {
      NotYetRevised(front, e);
    }
    forall f | f in front && SlotOf(f) == CommentSlot && f != target
      ensures !Revises(f.id)(e)
    {
      if IsRevision(e) && f.id == target.id { SameIdSameEvent(front, f, target); }
    }
    GrownBy(front, e, target);
    MatchUpdate(front, e, target, Reading(front), Reading(front + [e]), comments, FoldComment(comments, e));
  }

  /** The first import of the record `e` re-imports, or `e` itself when it is new. */
  ghost predicate ImportTarget(front: seq<Event>, e: Event, imports: map<string, nat>, target: Event) {
    if FoldKey(e) in imports then
      && target in front && target.kind.ImportComment? && target.overrideReason.None?
      && SameFoldKey(target)(e) && IsFirstFolded(front, target)
      && imports[FoldKey(e)] == target.id
    else
      target == e && e.overrideReason.None? && forall f <- front :: f.kind.ImportComment? ==> !SameFoldKey(f)(e)
  }

  lemma {:induction false} FindImportTarget(front: seq<Event>, e: Event, imports: map<string, nat>) returns (target: Event)
    requires Lifecycle(front + [e]) && e.kind.ImportComment?
    requires ImportsMatch(imports, front)
    ensures ImportTarget(front, e, imports, target)
  {
    hide Lifecycle, FoldKey;
    target := e;
    NoImportOverride(front, e, e);
    assert e in front + [e] && forall f <- front :: f in front + [e];
    if FoldKey(e) in imports {
      target :| target in front && target.kind.ImportComment? && FoldKey(target) == FoldKey(e)
                && IsFirstFolded(front, target) && imports[FoldKey(e)] == target.id;
      NoImportOverride(front, e, target);
    }
  }

  /** Only the target reads differently after an import: other first imports keep their newest text. */
  lemma {:induction false} ImportReads(front: seq<Event>, e: Event, imports: map<string, nat>, target: Event, f: Event)
    requires Lifecycle(front + [e]) && e.kind.ImportComment? && ImportTarget(front, e, imports, target)
    requires f in front && SlotOf(f) == CommentSlot && f != target && f.kind.ImportComment?
    ensures FoldItem(front + [e], f) == FoldItem(front, f)
  {
    hide FoldKey;
    PrefixLifecycle(front, e);
    AppendedReads(front, e, f);
    if SameFoldKey(f)(e) {
      assert SameFoldKey(f)(target) && SameFoldKey(target)(f);
      if IsFirstFolded(front, f) { SameIdSameEvent(front, f, target); }
    }
  }

  lemma {:induction false} TargetReads(front: seq<Event>, e: Event, s: FoldState, target: Event)
    requires Lifecycle(front + [e]) && e.kind.ImportComment? && ImportTarget(front, e, s.imports, target)
    requires CommentsMatch(s.comments, front, Reading(front))
    requires forall k :: k in s.comments ==> s.comments[k].id == k
    ensures FoldItem(front + [e], target) == Some(ImportedItem(target.id, target.at, e))
    ensures FoldImport(s, e).comments == s.comments[target.id := ImportedItem(target.id, target.at, e)]
    ensures target != e ==> FoldItem(front + [e], e).None?
  {
    var log := front + [e];
    PrefixLifecycle(front, e);
    assert forall x :: x in log <==> x in front || x == e;
    NoImportOverride(front, e, e);
    hide Lifecycle, CommentsMatch, Digits;
    if target != e {
      Shown(s.comments, front, target);
      AppendedReads(front, e, target);
      assert SameFoldKey(e)(target);
    } else {
      assert SameFoldKey(e)(log[|log| - 1]);
      assert IsFirstFolded(log, e);
    }
  }

  /** In a lifecycle log no revision touches an imported comment, so its first import is always shown. */
  lemma {:induction false} ImportStep(front: seq<Event>, e: Event, s: FoldState)
    requires Lifecycle(front + [e]) && e.kind.ImportComment?
    requires CommentsMatch(s.comments, front, Reading(front)) && ImportsMatch(s.imports, front)
    requires forall k :: k in s.comments ==> s.comments[k].id == k
    ensures CommentsMatch(FoldImport(s, e).comments, front + [e], Reading(front + [e]))
  {
    hide Lifecycle, CommentsMatch, ImportsMatch, ImportTarget, Grown, FoldItem, FoldImport;
    var log := front + [e];
    var target := FindImportTarget(front, e, s.imports);
    TargetReads(front, e, s, target);
    forall f | f in front && SlotOf(f) == CommentSlot && f != target && f.kind.ImportComment?
      ensures Reading(log)(f) == Reading(front)(f)
    {
      ImportReads(front, e, s.imports, target, f);
    }
    GrownByImport(front, e, target);
    ImportTargetListed(front, e, s.imports, target);
    MatchUpdate(front, e, target, Reading(front), Reading(log), s.comments, FoldImport(s, e).comments);
  }

  lemma {:induction false} ImportTargetListed(front: seq<Event>, e: Event, imports: map<string, nat>, target: Event)
    requires e.kind.ImportComment? && ImportTarget(front, e, imports, target)
    ensures target in front + [e] && SlotOf(target) == CommentSlot
  {
    hide FoldKey;
  }

  lemma {:induction false} OverrideKinds(front: seq<Event>, e: Event, f: Event)
    requires Lifecycle(front + [e]) && f in front + [e]
    ensures f.overrideReason.Some? ==> MayOverride(f.kind)
  {}

  lemma {:induction false} NoImportOverride(front: seq<Event>, e: Event, f: Event)
    requires Lifecycle(front + [e]) && f in front + [e]
    ensures f.kind.ImportComment? ==> f.overrideReason.None?
  {}

  lemma {:induction false} GrownByImport(front: seq<Event>, e: Event, target: Event)
    requires Lifecycle(front + [e]) && !IsRevision(e)
    requires forall f <- front :: SlotOf(f) == CommentSlot && f != target && f.kind.ImportComment? ==>
               Reading(front + [e])(f) == Reading(front)(f)
    requires e == target || FoldItem(front + [e], e).None?
    ensures Grown(front, e, target, Reading(front), Reading(front + [e]))
  {
    PrefixLifecycle(front, e);
    forall a, b | a in front + [e] && b in front + [e] && a.id == b.id
      ensures a == b
    {
      SameIdSameEvent(front + [e], a, b);
    }
    forall f | f in front && SlotOf(f) == CommentSlot && f != target
      ensures Reading(front + [e])(f) == Reading(front)(f)
    {
      AppendedReads(front, e, f);
    }
  }

  lemma {:induction false} NewKeyIsFirst(front: seq<Event>, e: Event, imports: map<string, nat>)
    requires ImportsMatch(imports, front)
    requires e.kind.ImportComment? && FoldKey(e) !in imports
    ensures IsFirstFolded(front + [e], e)
  {
    hide FoldKey;
    var log := front + [e];
    assert e in log;
    forall f | f in log && SameFoldKey(e)(f)
      ensures f.id >= e.id
    {
      assert FoldKey(f) == FoldKey(e);
      assert f in front || f == e;
    }
  }

  lemma {:induction false} ImportsKeep(front: seq<Event>, e: Event, imports: map<string, nat>)
    requires ImportsMatch(imports, front) && forall f <- front :: f.id < e.id
    ensures forall key :: key in imports ==>
              exists f <- front + [e] :: f.kind.ImportComment? && FoldKey(f) == key && IsFirstFolded(front + [e], f) && imports[key] == f.id
  {
    hide FoldKey;
    var log := front + [e];
    forall key | key in imports
      ensures exists f <- log :: f.kind.ImportComment? && FoldKey(f) == key && IsFirstFolded(log, f) && imports[key] == f.id
    {
      var f :| f in front && f.kind.ImportComment? && FoldKey(f) == key && IsFirstFolded(front, f) && imports[key] == f.id;
      assert f in log && IsFirstFolded(log, f);
    }
  }

  lemma {:induction false} ImportsStep(front: seq<Event>, e: Event, imports: map<string, nat>)
    requires Lifecycle(front + [e]) && ImportsMatch(imports, front)
    ensures e.kind.ImportComment? && FoldKey(e) !in imports ==>
              ImportsMatch(imports[FoldKey(e) := e.id], front + [e])
    ensures !e.kind.ImportComment? || FoldKey(e) in imports ==> ImportsMatch(imports, front + [e])
  {
    hide Lifecycle, FoldKey, IsFirstFolded;
    PrefixLifecycle(front, e);
    ImportsKeep(front, e, imports);
    assert forall x :: x in front + [e] <==> x in front || x == e;
    if e.kind.ImportComment? && FoldKey(e) !in imports {
      NewKeyIsFirst(front, e, imports);
      assert e in front + [e];
    }
  }

  /** What one more event must find in the state folded so far. */
  ghost predicate FoldMatches(s: FoldState, log: seq<Event>) {
    && CommentsMatch(s.comments, log, Reading(log))
    && ImportsMatch(s.imports, log)
    && forall k :: k in s.comments ==> s.comments[k].id == k
  }

  lemma {:induction false} FoldCommentsMatch(log: seq<Event>)
    requires Lifecycle(log)
    ensures FoldMatches(Fold(log), log)
  {
    if log != [] {
      hide *;
      var front, e := log[..|log| - 1], log[|log| - 1];
      assert log == front + [e];
      PrefixLifecycle(front, e);
      FoldCommentsMatch(front);
      FoldSnoc(front, e);
      FoldOneMore(front, e, Fold(front));
    } else {
      assert Fold(log) == START;
    }
  }

  lemma {:induction false} FoldOneMore(front: seq<Event>, e: Event, s: FoldState)
    requires Lifecycle(front + [e])
    requires FoldMatches(s, front)
    ensures FoldMatches(FoldStep(s, e), front + [e])
  {
    hide Lifecycle, CommentsMatch, ImportsMatch, FoldItem, FoldKey;
    NoImportOverride(front, e, e);
    ImportsStep(front, e, s.imports);
    FoldOne(front, e, s);
  }

  lemma {:induction false} FoldOne(front: seq<Event>, e: Event, s: FoldState)
    requires Lifecycle(front + [e])
    requires CommentsMatch(s.comments, front, Reading(front)) && ImportsMatch(s.imports, front)
    requires forall k :: k in s.comments ==> s.comments[k].id == k
    ensures CommentsMatch(FoldStep(s, e).comments, front + [e], Reading(front + [e]))
  {
    hide Lifecycle, CommentsMatch, ImportsMatch, FoldItem, FoldComment, FoldImport, OwnItem;
    assert e in front + [e];
    PrefixLifecycle(front, e);
    if SlotOf(e) != CommentSlot {
      forall f | f in front && SlotOf(f) == CommentSlot
        ensures Reading(front + [e])(f) == Reading(front)(f)
      {
        OverrideKinds(front, e, e);
        AppendedReads(front, e, f);
      }
      MatchSame(front, e, Reading(front), Reading(front + [e]), s.comments);
    } else if e.kind.ImportComment? {
      ImportStep(front, e, s);
    } else {
      CommentStep(front, e, s.comments);
    }
  }

  /** The two lists the fold fills without lookups. */
  lemma {:induction false} FoldListsMatch(log: seq<Event>)
    ensures forall i :: i in Fold(log).items <==> DirectItem(log, i)
    ensures forall f :: f in Fold(log).history <==> f in log && SlotOf(f) == HistorySlot
  {
    if log != [] {
      var front, e := log[..|log| - 1], log[|log| - 1];
      assert log == front + [e];
      FoldListsMatch(front);
      assert forall x :: x in log <==> x in front || x == e;
      forall i
        ensures DirectItem(log, i) <==> DirectItem(front, i) || (SlotOf(e) == DirectSlot && Direct(e) == Some(i))
      {}
    }
  }

  function Direct(e: Event): Option<Item> {
    if e.overrideReason.Some? then Some(OverrideItem(e)) else OwnItem(e)
  }

  ghost predicate DirectItem(log: seq<Event>, i: Item) {
    exists f <- log :: SlotOf(f) == DirectSlot && Direct(f) == Some(i)
  }

  /** Snapshots are looked up among the history events only, whichever list is searched. */
  lemma {:induction false} PreviousInHistory(log: seq<Event>, history: seq<Event>, e: Event)
    requires IdsAscending(log)
    requires forall f <- log :: HasSnapshot(f) ==> f in history
    requires forall f <- history :: f in log
    ensures Previous(history, e) == Previous(log, e)
  {
    var a, b := Previous(history, e), Previous(log, e);
    if a.Some? && b.Some? {
      assert a.value in log && b.value in history;
      assert a.value.id == b.value.id;
      SameIdSameEvent(log, a.value, b.value);
    }
  }

  /** In every log the comment lifecycle allows, the fold collects exactly what its grouping gives event by event. */
  lemma {:induction false} FoldIsGrouped(log: seq<Event>)
    requires Lifecycle(log)
    ensures Collected(log) == FoldItems(log)
  {
    FoldCommentsMatch(log);
    FoldListsMatch(log);
    HistoryReads(log);
    forall i
      ensures i in Collected(log) <==> i in FoldItems(log)
    {
      CollectedIsFolded(log, i);
    }
  }

  lemma {:induction false} HistoryReads(log: seq<Event>)
    requires Lifecycle(log)
    ensures forall e :: Previous(Fold(log).history, e) == Previous(log, e)
  {
    FoldListsMatch(log);
    assert forall f <- log :: HasSnapshot(f) ==> f.overrideReason.None?;
    forall e
      ensures Previous(Fold(log).history, e) == Previous(log, e)
    {
      PreviousInHistory(log, Fold(log).history, e);
    }
  }

  lemma {:induction false} CollectedIsFolded(log: seq<Event>, i: Item)
    requires CommentsMatch(Fold(log).comments, log, Reading(log))
    requires forall k :: k in Fold(log).comments ==> Fold(log).comments[k].id == k
    requires forall x :: x in Fold(log).items <==> DirectItem(log, x)
    requires forall f :: f in Fold(log).history <==> f in log && SlotOf(f) == HistorySlot
    requires forall e :: Previous(Fold(log).history, e) == Previous(log, e)
    ensures i in Collected(log) <==> i in FoldItems(log)
  {
    hide Fold, Previous, OwnItem, HistoryItem, NewestRevision, IsFirst, LastWhere;
    var s := Fold(log);
    if i in Collected(log) {
      if i in s.comments.Values {
        var k :| k in s.comments && s.comments[k] == i;
        var f :| f in log && f.id == k && SlotOf(f) == CommentSlot && Reading(log)(f).Some?;
        assert FoldItem(log, f) == Some(i);
      } else if i in s.items {
        var f :| f in log && SlotOf(f) == DirectSlot && Direct(f) == Some(i);
        assert FoldItem(log, f) == Some(i);
      } else {
        var e :| e in s.history && HistoryItem(SnapshotOf(Previous(s.history, e)), e) == Some(i);
        assert FoldItem(log, e) == Some(i);
      }
    }
    if i in FoldItems(log) {
      var e :| e in log && FoldItem(log, e) == Some(i);
      if SlotOf(e) == CommentSlot {
        assert Reading(log)(e) == Some(i);
        assert i in s.comments.Values;
      } else if SlotOf(e) == HistorySlot {
        assert e in s.history;
      } else {
        assert DirectItem(log, i);
      }
    }
  }

  // ------------------------------------------------ the two groupings agree

  lemma {:induction false} SameLast(log: seq<Event>, p: Event -> bool, q: Event -> bool)
    requires forall f <- log :: p(f) <==> q(f)
    ensures LastWhere(log, p) == LastWhere(log, q)
  {
    if log != [] {
      assert log[|log| - 1] in log && forall f <- log[..|log| - 1] :: f in log;
      SameLast(log[..|log| - 1], p, q);
    }
  }

  lemma {:induction false} GroupsReadAlike(log: seq<Event>, e: Event)
    requires KeysAgree(log) && e in log
    ensures FoldItem(log, e) == PointItem(log, e)
  {
    hide FoldKey, SqlKey;
    if e.kind.ImportComment? {
      forall f | f in log
        ensures SameFoldKey(e)(f) <==> SameRecord(e)(f)
      {}
      SameLast(log, SameFoldKey(e), SameRecord(e));
    }
  }

  /**
   * The timeline agreement: in every log the comment lifecycle allows, the fold
   * collects exactly the items the lookups give event by event, if both group
   * the imports alike.
   */
  lemma {:induction false} FoldIsPointwise(log: seq<Event>)
    requires Lifecycle(log) && KeysAgree(log)
    ensures Collected(log) == PointItems(log)
  {
    FoldIsGrouped(log);
    hide Collected, FoldItem, PointItem, Lifecycle, KeysAgree;
    forall e | e in log
      ensures FoldItem(log, e) == PointItem(log, e)
    {
      GroupsReadAlike(log, e);
    }
  }
}
