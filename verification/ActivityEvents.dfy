/**
 * The append-only event log of one ticket and the timeline items made from it
 * (internal/activity/timeline.go). Identifiers are the tenant-local event
 * numbers; 0 stands for the empty identifier. Times are instants counted from
 * Go's zero time, which is 0.
 */
module ActivityEvents {
  import opened Wrappers
  import opened NewestFirst

  datatype Kind =
    | ImportComment | ImportHistory | ImportNodeCreated
    | NodeCreated | NodeUpdated | NodeMoved | NodeKindChanged
    | EntryRefused
    | CommentCreated | CommentUpdated | CommentDeleted
    | AutopilotChanged | AutopilotSkipped | AutopilotDerived
    | AutopilotUndone | AutopilotRetained | AutopilotCausalUndo
    | OtherKind

  /** A snapshot's diffed fields, already reduced to scalars. */
  datatype Fields = Fields(
    status: Option<string>, priority: Option<string>, assignee: Option<string>,
    title: Option<string>, parent: Option<string>, tags: Option<string>,
    humanCheck: Option<string>)

  datatype FieldName = Status | Priority | Assignee | Title | Parent | Tags | HumanCheck | KindField

  datatype FieldChange = FieldChange(field: FieldName, from: Option<string>, to: Option<string>)

  /** What the event's `after` document says, apart from native fields. */
  datatype Payload = Payload(
    commentId: nat,           // the comment a revision names; 0 when absent
    body: string,             // comment text
    source: string,           // classic source the document came from
    recordId: string,         // id of the imported record; "" when absent
    record: string,           // who the imported record says wrote it
    snapshot: Option<Fields>, // imported history snapshot
    createdAt: Option<int>)   // imported creation time, when it parses

  datatype Event = Event(
    id: nat, at: int, kind: Kind, actor: string,
    before: Fields, after: Fields, payload: Payload,
    overrideReason: Option<string>, // entry-check override in the metadata
    kindFrom: string, kindTo: string)

  datatype Author = Principal(actor: string) | Classic(source: string, record: string)

  datatype ItemType = CommentItem | CreatedItem | ChangeItem

  datatype Item = Item(
    id: nat, at: int, typ: ItemType, author: Author, body: Option<string>,
    changes: seq<FieldChange>, overrideReason: Option<string>)

  // ---------------------------------------------------------------- diff

  const DIFFED: seq<FieldName> := [Status, Priority, Assignee, Title, Parent, Tags, HumanCheck]

  function Get(f: Fields, n: FieldName): Option<string> {
    match n
    case Status => f.status
    case Priority => f.priority
    case Assignee => f.assignee
    case Title => f.title
    case Parent => f.parent
    case Tags => f.tags
    case HumanCheck => f.humanCheck
    case KindField => None
  }

  function Set(f: Fields, n: FieldName, v: Option<string>): Fields {
    match n
    case Status => f.(status := v)
    case Priority => f.(priority := v)
    case Assignee => f.(assignee := v)
    case Title => f.(title := v)
    case Parent => f.(parent := v)
    case Tags => f.(tags := v)
    case HumanCheck => f.(humanCheck := v)
    case KindField => f
  }

  function DiffFrom(before: Fields, after: Fields, names: seq<FieldName>): seq<FieldChange> {
    if names == [] then []
    else
      var n := names[0];
      var rest := DiffFrom(before, after, names[1..]);
      if Get(before, n) == Get(after, n) then rest
      else [FieldChange(n, Get(before, n), Get(after, n))] + rest
  }

  /** One change per field that differs, in the fixed field order. */
  function Diff(before: Fields, after: Fields): seq<FieldChange> {
    DiffFrom(before, after, DIFFED)
  }

  /** Replay a list of changes over a snapshot. */
  function Apply(f: Fields, changes: seq<FieldChange>): Fields
    decreases |changes|
  {
    if changes == [] then f else Apply(Set(f, changes[0].field, changes[0].to), changes[1..])
  }

  lemma {:induction false} ApplyDiffFrom(f: Fields, before: Fields, after: Fields, names: seq<FieldName>)
    requires KindField !in names
    requires forall i, j :: 0 <= i < j < |names| ==> names[i] != names[j]
    requires forall n <- names :: Get(f, n) == Get(before, n)
    ensures forall n: FieldName ::
              Get(Apply(f, DiffFrom(before, after, names)), n) ==
              if n in names then Get(after, n) else Get(f, n)
    decreases |names|
  {
    if names != [] {
      var n := names[0];
      assert names == [n] + names[1..];
      var rest := DiffFrom(before, after, names[1..]);
      if Get(before, n) == Get(after, n) {
        ApplyDiffFrom(f, before, after, names[1..]);
      } else {
        var g := Set(f, n, Get(after, n));
        ApplyDiffFrom(g, before, after, names[1..]);
        var c := FieldChange(n, Get(before, n), Get(after, n));
        assert ([c] + rest)[1..] == rest;
      }
    }
  }

  /** The diff is complete: replaying it on the old snapshot gives the new one, and it is empty exactly when nothing changed. */
  lemma {:induction false} DiffReplays(before: Fields, after: Fields)
    ensures Apply(before, Diff(before, after)) == after
    ensures Diff(before, after) == [] <==> before == after
  {
    ApplyDiffFrom(before, before, after, DIFFED);
    var r := Apply(before, Diff(before, after));
    assert forall n <- DIFFED :: Get(r, n) == Get(after, n);
    assert Status in DIFFED && Priority in DIFFED && Assignee in DIFFED && Title in DIFFED;
    assert Parent in DIFFED && Tags in DIFFED && HumanCheck in DIFFED;
    assert Get(r, Status) == Get(after, Status) && Get(r, Priority) == Get(after, Priority);
    assert Get(r, Assignee) == Get(after, Assignee) && Get(r, Title) == Get(after, Title);
    assert Get(r, Parent) == Get(after, Parent) && Get(r, Tags) == Get(after, Tags);
    assert Get(r, HumanCheck) == Get(after, HumanCheck);
    if before == after { NoDiff(before, DIFFED); }
  }

  lemma {:induction false} NoDiff(f: Fields, names: seq<FieldName>)
    ensures DiffFrom(f, f, names) == []
  {
    if names != [] { NoDiff(f, names[1..]); }
  }

  // ----------------------------------------------------------------- log

  /** Event numbers start at 1 and rise along the log. */
  ghost predicate IdsAscending(log: seq<Event>) {
    && (forall i :: 0 <= i < |log| ==> 1 <= log[i].id)
    && (forall i, j :: 0 <= i < j < |log| ==> log[i].id < log[j].id)
  }

  ghost predicate DistinctIds(log: seq<Event>) {
    && (forall i :: 0 <= i < |log| ==> 1 <= log[i].id)
    && (forall i, j :: 0 <= i < j < |log| ==> log[i].id != log[j].id)
  }

  /** `aeon_activity_at`: an imported creation keeps its own time. */
  function ActivityAt(e: Event): int {
    if e.kind.ImportNodeCreated? && e.payload.createdAt.Some? then e.payload.createdAt.value else e.at
  }

  function EventStamp(e: Event): Stamp {
    Stamp(e.at, e.id)
  }

  function RowStamp(e: Event): Stamp {
    Stamp(ActivityAt(e), e.id)
  }

  function ItemStamp(i: Item): Stamp {
    Stamp(i.at, i.id)
  }

  predicate HasSnapshot(e: Event) {
    e.kind.ImportHistory? && e.payload.snapshot.Some?
  }

  // ------------------------------------------------------------- lookups

  /** `ORDER BY id DESC LIMIT 1` over a log in id order. */
  function LastWhere(log: seq<Event>, p: Event -> bool): (r: Option<Event>)
    ensures r.Some? ==> r.value in log && p(r.value)
    ensures r.None? ==> forall e <- log :: !p(e)
  {
    if log == [] then None
    else if p(log[|log| - 1]) then Some(log[|log| - 1])
    else LastWhere(log[..|log| - 1], p)
  }

  lemma {:induction false} LastWhereIsNewest(log: seq<Event>, p: Event -> bool)
    requires IdsAscending(log)
    ensures LastWhere(log, p).Some? ==>
              forall e <- log :: p(e) ==> e.id <= LastWhere(log, p).value.id
  {
    if log != [] && !p(log[|log| - 1]) {
      var front := log[..|log| - 1];
      LastWhereIsNewest(front, p);
      assert forall e <- log :: e in front || e == log[|log| - 1];
    }
  }

  predicate IsRevision(e: Event) {
    e.kind.CommentUpdated? || e.kind.CommentDeleted?
  }

  /** A revision event naming the comment. */
  function Revises(id: nat): Event -> bool {
    (e: Event) => IsRevision(e) && e.payload.commentId == id
  }

  /** The newest update or deletion of a comment, as both SQL lookups take it. */
  function NewestRevision(log: seq<Event>, id: nat): Option<Event> {
    LastWhere(log, Revises(id))
  }
}
