/**
 * The comment lifecycle of internal/activity/comments.go: one event per
 * accepted operation, decided from the newest revision under a per-comment
 * lock. Every other writer of the log is a foreign append.
 */
module ActivityComments {
  import opened Wrappers
  import opened ActivityEvents

  /** The edit window, in microseconds. */
  const EDIT_WINDOW: int := 15 * 60 * 1_000_000

  datatype CommentError = NotFound | Forbidden

  /**
   * One request: `check` is the database clock the window test reads and
   * `append` the later clock the appended event records. `eventId` is the
   * number the tenant counter hands out.
   */
  datatype CommentOp = CommentOp(
    actor: string, commentId: nat, body: string, remove: bool,
    check: int, append: int, eventId: nat)

  const NO_FIELDS := Fields(None, None, None, None, None, None, None)

  function CommentEvent(op: CommentOp, kind: Kind, body: string): Event {
    Event(op.eventId, op.append, kind, op.actor, NO_FIELDS, NO_FIELDS,
          Payload(op.commentId, body, "", "", "", None, None), None, "", "")
  }

  function IsCreation(id: nat): Event -> bool {
    (e: Event) => e.kind.CommentCreated? && e.id == id
  }

  /** The event an operation appends, or why it is refused. */
  function Decide(log: seq<Event>, op: CommentOp): Result<Event, CommentError> {
    if op.commentId == 0 then Ok(CommentEvent(op, CommentCreated, op.body))
    else
      var found := LastWhere(log, IsCreation(op.commentId));
      if found.None? then Err(NotFound)
      else if found.value.actor != op.actor then Err(Forbidden)
      else
        var latest := NewestRevision(log, op.commentId);
        if latest.Some? && latest.value.kind.CommentDeleted? then Err(NotFound)
        else if !(found.value.at <= op.check < found.value.at + EDIT_WINDOW) then Err(Forbidden)
        else if op.remove then
          Ok(CommentEvent(op, CommentDeleted, latest.GetOr(found.value).payload.body))
        else Ok(CommentEvent(op, CommentUpdated, op.body))
  }

  /** A ticket's log with its only comment writer. */
  class CommentStore {
    var log: seq<Event>

    constructor ()
      ensures log == []
    {
      log := [];
    }

    /** `writeComment`: an accepted operation appends exactly one event, a refused one nothing. */
    method WriteComment(op: CommentOp) returns (r: Result<Event, CommentError>)
      modifies this
      ensures r == Decide(old(log), op)
      ensures log == old(log) + (if r.Ok? then [r.value] else [])
    {
      var kind, text := CommentCreated, op.body;
      if op.commentId != 0 {
        var found := LastWhere(log, IsCreation(op.commentId));
        if found.None? { return Err(NotFound); }
        if found.value.actor != op.actor { return Err(Forbidden); }
        var current := found.value;
        var latest := NewestRevision(log, op.commentId);
        if latest.Some? { current := latest.value; }
        if current.kind.CommentDeleted? { return Err(NotFound); }
        if !(found.value.at <= op.check && op.check < found.value.at + EDIT_WINDOW) {
          return Err(Forbidden);
        }
        kind := CommentUpdated;
        if op.remove { kind, text := CommentDeleted, current.payload.body; }
      }
      var e := CommentEvent(op, kind, text);
      log := log + [e];
      r := Ok(e);
    }
  }

  // ------------------------------------------------------ reachable logs

  /** Entry-check overrides ride only on native ticket and autopilot events. */
  predicate MayOverride(k: Kind) {
    !(k.ImportComment? || k.ImportHistory? || k.ImportNodeCreated? ||
      k.CommentCreated? || k.CommentUpdated? || k.CommentDeleted? || k.OtherKind?)
  }

  predicate IsCommentKind(k: Kind) {
    k.CommentCreated? || k.CommentUpdated? || k.CommentDeleted?
  }

  datatype Step = Comment(op: CommentOp) | Foreign(event: Event)

  /** The log and, beside each entry, the clock its writer had checked. */
  datatype History = History(log: seq<Event>, checks: seq<int>)

  function NextId(log: seq<Event>): nat {
    if log == [] then 1 else log[|log| - 1].id + 1
  }

  /** What the tenant counter, the database clock and the other writers guarantee of a step. */
  ghost predicate StepAllowed(log: seq<Event>, s: Step) {
    match s
    case Comment(op) => op.eventId >= NextId(log) && op.check <= op.append
    case Foreign(e) =>
      && e.id >= NextId(log)
      && !IsCommentKind(e.kind)
      && (e.overrideReason.Some? ==> MayOverride(e.kind))
  }

  function Advance(h: History, s: Step): History {
    match s
    case Comment(op) =>
      (match Decide(h.log, op)
       case Ok(e) => History(h.log + [e], h.checks + [op.check])
       case Err(_) => h)
    case Foreign(e) => History(h.log + [e], h.checks + [e.at])
  }

  ghost predicate Reachable(steps: seq<Step>, h: History) {
    if steps == [] then h == History([], [])
    else
      exists prev: History ::
        && Reachable(steps[..|steps| - 1], prev)
        && StepAllowed(prev.log, steps[|steps| - 1])
        && h == Advance(prev, steps[|steps| - 1])
  }

  /** Revision `j` belongs to the live comment created at `i`, by the same author and after it. */
  ghost predicate RevisionOf(log: seq<Event>, i: nat, j: nat)
    requires i < |log| && j < |log|
  {
    && i < j
    && log[i].kind.CommentCreated?
    && log[i].id == log[j].payload.commentId
    && log[i].actor == log[j].actor
    && log[i].at <= log[j].at
  }

  ghost predicate RevisionsFollow(log: seq<Event>) {
    forall j :: 0 <= j < |log| && IsRevision(log[j]) ==>
      exists i :: 0 <= i < |log| && RevisionOf(log, i, j)
  }

  ghost predicate DeletionsLast(log: seq<Event>) {
    forall i, j :: 0 <= i < j < |log| && log[i].kind.CommentDeleted? && IsRevision(log[j]) ==>
      log[i].payload.commentId != log[j].payload.commentId
  }

  ghost predicate Lifecycle(log: seq<Event>) {
    && IdsAscending(log)
    && RevisionsFollow(log)
    && DeletionsLast(log)
    && (forall e <- log :: e.overrideReason.Some? ==> MayOverride(e.kind))
  }

  /** Each revision's checked clock lay inside the fifteen minutes after creation. */
  ghost predicate ChecksInWindow(h: History) {
    && |h.checks| == |h.log|
    && forall i, j :: 0 <= i < |h.log| && 0 <= j < |h.log| && IsRevision(h.log[j]) && RevisionOf(h.log, i, j) ==>
         h.log[i].at <= h.checks[j] < h.log[i].at + EDIT_WINDOW && h.checks[j] <= h.log[j].at
  }

  /** What an accepted revision rests on: a creation by the same author, and no deletion so far. */
  lemma {:induction false} AcceptedRevision(log: seq<Event>, op: CommentOp) returns (c: nat)
    requires Lifecycle(log) && StepAllowed(log, Comment(op)) && op.commentId != 0
    requires Decide(log, op).Ok?
    ensures c < |log| && log[c].kind.CommentCreated? && log[c].id == op.commentId && log[c].actor == op.actor
    ensures log[c].at <= op.check < log[c].at + EDIT_WINDOW
    ensures forall i :: 0 <= i < |log| && log[i].kind.CommentDeleted? ==> log[i].payload.commentId != op.commentId
  {
    var found := LastWhere(log, IsCreation(op.commentId));
    c :| 0 <= c < |log| && log[c] == found.value;
    forall i | 0 <= i < |log| && log[i].kind.CommentDeleted?
      ensures log[i].payload.commentId != op.commentId
    {
      if log[i].payload.commentId == op.commentId {
        DeletionIsNewest(log, i, op.commentId);
      }
    }
  }

  /** `e` may revise the comment created at `c`. */
  ghost predicate MayRevise(log: seq<Event>, e: Event, c: nat) {
    && c < |log| && log[c].kind.CommentCreated? && log[c].id == e.payload.commentId
    && log[c].actor == e.actor && log[c].at <= e.at
    && forall i :: 0 <= i < |log| && log[i].kind.CommentDeleted? ==>
         log[i].payload.commentId != e.payload.commentId
  }

  lemma {:induction false} ExtendFollow(log: seq<Event>, e: Event, c: nat)
    requires RevisionsFollow(log) && (IsRevision(e) ==> MayRevise(log, e, c))
    ensures RevisionsFollow(log + [e])
  {
    var next, n := log + [e], |log|;
    forall j | 0 <= j < |next| && IsRevision(next[j])
      ensures exists i :: 0 <= i < |next| && RevisionOf(next, i, j)
    {
      if j < n {
        var i :| 0 <= i < n && RevisionOf(log, i, j);
        assert RevisionOf(next, i, j);
      } else {
        assert RevisionOf(next, c, j);
      }
    }
  }

  lemma {:induction false} ExtendLifecycle(log: seq<Event>, e: Event, c: nat)
    requires Lifecycle(log) && e.id >= NextId(log)
    requires e.overrideReason.Some? ==> MayOverride(e.kind)
    requires IsRevision(e) ==> MayRevise(log, e, c)
    ensures Lifecycle(log + [e])
  {
    ExtendFollow(log, e, c);
    hide RevisionsFollow, MayOverride;
    assert DeletionsLast(log + [e]);
    assert IdsAscending(log + [e]) by { hide DeletionsLast, MayRevise; }
  }

  lemma {:induction false} ExtendWindow(h: History, e: Event, check: int, c: nat)
    requires ChecksInWindow(h) && IdsAscending(h.log)
    requires IsRevision(e) ==>
               && c < |h.log| && h.log[c].id == e.payload.commentId
               && h.log[c].at <= check < h.log[c].at + EDIT_WINDOW && check <= e.at
    ensures ChecksInWindow(History(h.log + [e], h.checks + [check]))
  {
    var log, checks, n := h.log + [e], h.checks + [check], |h.log|;
    forall i, j | 0 <= i < |log| && 0 <= j < |log| && IsRevision(log[j]) && RevisionOf(log, i, j)
      ensures log[i].at <= checks[j] < log[i].at + EDIT_WINDOW && checks[j] <= log[j].at
    {
      assert log[i] == h.log[i];
      if j < n {
        assert RevisionOf(h.log, i, j);
      } else {
        assert log[i].id == h.log[c].id;
        assert i == c;
      }
    }
  }

  lemma {:induction false} AppendKeepsLifecycle(h: History, s: Step)
    requires Lifecycle(h.log) && ChecksInWindow(h)
    requires StepAllowed(h.log, s)
    ensures Lifecycle(Advance(h, s).log) && ChecksInWindow(Advance(h, s))
  {
    match s
    case Foreign(e) =>
      ExtendLifecycle(h.log, e, 0);
      ExtendWindow(h, e, e.at, 0);
    case Comment(op) =>
      match Decide(h.log, op) {
        case Err(_) =>
        case Ok(e) =>
          var c := 0;
          if op.commentId != 0 { c := AcceptedRevision(h.log, op); }
          ExtendLifecycle(h.log, e, c);
          ExtendWindow(h, e, op.check, c);
      }
  }

  /** In a lifecycle log, a deletion is the newest revision of its comment. */
  lemma {:induction false} DeletionIsNewest(log: seq<Event>, i: nat, id: nat)
    requires Lifecycle(log) && i < |log|
    requires log[i].kind.CommentDeleted? && log[i].payload.commentId == id
    ensures NewestRevision(log, id) == Some(log[i])
  {
    hide RevisionsFollow, MayOverride;
    LastWhereIsNewest(log, Revises(id));
    var r := NewestRevision(log, id);
    assert Revises(id)(log[i]);
    var j :| 0 <= j < |log| && log[j] == r.value;
    assert !(i < j);
  }

  /**
   * Every reachable log obeys the lifecycle: revisions are by the comment's
   * author, inside the checked window, and none follows a deletion.
   */
  lemma {:induction false} ReachableLogsObeyLifecycle(steps: seq<Step>, h: History)
    requires Reachable(steps, h)
    ensures Lifecycle(h.log) && ChecksInWindow(h)
    decreases |steps|
  {
    if steps != [] {
      var prev: History :|
        && Reachable(steps[..|steps| - 1], prev)
        && StepAllowed(prev.log, steps[|steps| - 1])
        && h == Advance(prev, steps[|steps| - 1]);
      ReachableLogsObeyLifecycle(steps[..|steps| - 1], prev);
      AppendKeepsLifecycle(prev, steps[|steps| - 1]);
    }
  }

  /**
   * Only the checked clock is inside the window: the event records a later
   * clock, which may fall outside it.
   */
  lemma {:induction false} RecordedTimeMayLeaveWindow()
    ensures exists log: seq<Event>, op: CommentOp ::
              && Lifecycle(log) && StepAllowed(log, Comment(op))
              && Decide(log, op).Ok? && log != []
              && Decide(log, op).value.payload.commentId == log[0].id
              && Decide(log, op).value.at >= log[0].at + EDIT_WINDOW
  {
    var create := CommentOp("a", 0, "hi", false, 1, 1, 1);
    var log := [CommentEvent(create, CommentCreated, "hi")];
    var op := CommentOp("a", 1, "ho", false, EDIT_WINDOW, EDIT_WINDOW + 1, 2);
    assert LastWhere(log, IsCreation(1)) == Some(log[0]);
    assert NewestRevision(log, 1) == None by {
      assert LastWhere(log[..0], Revises(1)) == None;
    }
    assert Lifecycle(log) && StepAllowed(log, Comment(op));
    assert Decide(log, op).Ok?;
  }
}
