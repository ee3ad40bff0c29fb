/**
 * The account/context matrix and its revision-fenced writes
 * (internal/accountuse/writes.go and policy.go). Each request is one
 * transaction under the matrix lock; a refused one changes nothing.
 */
module AccountUse {
  import opened UuidText
  import opened Wrappers
  import IdOrder

  datatype Refusal = BadRequest | Forbidden | Conflict | NotFound | TooLarge | Guarded

  datatype RuleValues = RuleValues(newAccounts: string, newContexts: string, newProjects: string, newModels: string)

  datatype Rules = Rules(values: RuleValues, revision: int, confirmationRequired: bool)

  datatype ContextKind = Regular | Default | Holding

  datatype Context = Context(name: string, kind: ContextKind, deniesNew: bool, archived: bool, revision: int)

  /** Who allowed a cell. */
  datatype Origin = Person | Rule | Migration

  datatype Pair = Pair(account: string, context: string)

  /** `accounts` maps an account to whether it is archived; ids are lower-case. */
  datatype Matrix = Matrix(
    rules: Rules, accounts: map<string, bool>, contexts: map<string, Context>, cells: map<Pair, Origin>,
    awaiting: set<string>, projects: map<string, string>, autoAdd: bool)

  datatype Cell = Cell(account: string, context: string, allowed: bool)

  datatype Bulk = Bulk(scope: string, account: string, context: string, allowed: bool)

  datatype CellWrite = CellWrite(expected: int, changes: seq<Cell>, bulk: Option<Bulk>)

  datatype CellResult = CellResult(revision: int, changes: seq<Cell>, undo: seq<Cell>)

  const MAX_CELLS: nat := 1000

  // -------------------------------------------------------------------- ids

  function LowerChar(c: char): char { if 'A' <= c <= 'Z' then c - 'A' + 'a' else c }

  function Lower(s: string): (r: string)
    ensures |r| == |s|
  {
    seq(|s|, i requires 0 <= i < |s| => LowerChar(s[i]))
  }

  lemma {:induction false} LowerTwice(s: string)
    ensures Lower(Lower(s)) == Lower(s)
    ensures Uuid(s) ==> Uuid(Lower(s))
  {}

  // ------------------------------------------------------------------ fences

  /** `FenceWrite`: a person with the permission, at the revision they saw. */
  function Fence(m: Matrix, permitted: bool, expected: int): Option<Refusal> {
    if !permitted then Some(Forbidden)
    else if expected < 1 || m.rules.revision != expected then Some(Conflict)
    else None
  }

  function Bumped(m: Matrix): Matrix { m.(rules := m.rules.(revision := m.rules.revision + 1)) }

  predicate OpenAccount(m: Matrix, id: string) { id in m.accounts && !m.accounts[id] }

  predicate OpenContext(m: Matrix, id: string) { id in m.contexts && !m.contexts[id].archived && !m.contexts[id].kind.Holding? }

  // -------------------------------------------------------------- cell writes

  predicate ScopeOk(b: Bulk) {
    || (b.scope == "all" && b.account == "" && b.context == "")
    || (b.scope == "account" && Uuid(b.account) && b.context == "")
    || (b.scope == "context" && Uuid(b.context) && b.account == "")
  }

  /** The pairs a bulk change names: every open account and context, or those of one. */
  predicate InBulk(m: Matrix, b: Bulk, p: Pair) {
    && OpenAccount(m, p.account) && OpenContext(m, p.context)
    && (b.account == "" || p.account == Lower(b.account)) && (b.context == "" || p.context == Lower(b.context))
  }

  /** Accepted as the listing of a bulk change: each of its pairs once, with its value. */
  ghost predicate Lists(m: Matrix, b: Bulk, changes: seq<Cell>) {
    && (forall c <- changes :: InBulk(m, b, PairOf(c)) && c.allowed == b.allowed)
    && (forall p: Pair :: InBulk(m, b, p) ==> exists c <- changes :: PairOf(c) == p)
    && (forall i, j :: 0 <= i < j < |changes| ==> PairOf(changes[i]) != PairOf(changes[j]))
  }

  function PairOf(c: Cell): Pair { Pair(c.account, c.context) }

  function Lowered(c: Cell): Cell { Cell(Lower(c.account), Lower(c.context), c.allowed) }

  predicate Repeats(changes: seq<Cell>, n: nat)
    requires n < |changes|
  {
    exists j :: 0 <= j < n && PairOf(Lowered(changes[j])) == PairOf(Lowered(changes[n]))
  }

  /** The first `n` targets checked before anything is written: their inverse cells, or the first fault. */
  function Vet(m: Matrix, changes: seq<Cell>, n: nat): Result<seq<Cell>, Refusal>
    requires n <= |changes|
  {
    if n == 0 then Ok([])
    else
      match Vet(m, changes, n - 1)
      case Err(e) => Err(e)
      case Ok(undo) =>
        var c := changes[n - 1];
        if !Uuid(c.account) || !Uuid(c.context) || Repeats(changes, n - 1) then Err(BadRequest)
        else
          var l := Lowered(c);
          if !OpenAccount(m, l.account) || !OpenContext(m, l.context) then Err(NotFound)
          else Ok(undo + [Cell(l.account, l.context, PairOf(l) in m.cells)])
  }

  /** The cells after the first `n` changes. */
  function Written(cells: map<Pair, Origin>, changes: seq<Cell>, n: nat): map<Pair, Origin>
    requires n <= |changes|
  {
    if n == 0 then cells
    else
      var before := Written(cells, changes, n - 1);
      var c := changes[n - 1];
      if c.allowed then before[PairOf(c) := Person] else before - {PairOf(c)}
  }

  function AllLowered(changes: seq<Cell>): (r: seq<Cell>)
    ensures |r| == |changes|
  {
    seq(|changes|, i requires 0 <= i < |changes| => Lowered(changes[i]))
  }

  function Touched(changes: seq<Cell>): set<string> { set c | c in changes :: c.account }

  /** A save of vetted, lower-cased changes. */
  function Saved(m: Matrix, changes: seq<Cell>): Matrix {
    Bumped(m.(cells := Written(m.cells, changes, |changes|), awaiting := m.awaiting - Touched(changes)))
  }

  /** The checks on a request before its bulk listing is known. */
  function Requested(m: Matrix, permitted: bool, w: CellWrite): Option<Refusal> {
    if |w.changes| > MAX_CELLS || (w.bulk.Some? && |w.changes| != 0) || (w.bulk.None? && |w.changes| == 0) then Some(BadRequest)
    else if Fence(m, permitted, w.expected).Some? then Fence(m, permitted, w.expected)
    else if w.bulk.None? then None
    else
      var b := w.bulk.value;
      if !ScopeOk(b) then Some(BadRequest)
      else if b.scope == "account" && !OpenAccount(m, Lower(b.account)) then Some(NotFound)
      else if b.scope == "context" && !OpenContext(m, Lower(b.context)) then Some(NotFound)
      else None
  }

  /** The listed cells vetted, lower-cased and saved. */
  function ListedWritten(m: Matrix, listed: seq<Cell>): Result<(Matrix, CellResult), Refusal> {
    if |listed| > MAX_CELLS then Err(TooLarge)
    else
      match Vet(m, listed, |listed|)
      case Err(e) => Err(e)
      case Ok(undo) =>
        var changes := AllLowered(listed);
        var after := Saved(m, changes);
        Ok((after, CellResult(after.rules.revision, changes, undo)))
  }

  /** `WriteCells`, given the listing of its bulk change or its own cells. */
  function CellsWritten(m: Matrix, permitted: bool, w: CellWrite, listed: seq<Cell>): Result<(Matrix, CellResult), Refusal> {
    match Requested(m, permitted, w)
    case Some(e) => Err(e)
    case None => ListedWritten(m, listed)
  }

  // ------------------------------------------------------------- other writers

  /** `confirm`: nothing to do unless confirmation is asked for. */
  function Confirmed(m: Matrix, permitted: bool, expected: int): Result<Matrix, Refusal> {
    if Fence(m, permitted, expected).Some? then Err(Fence(m, permitted, expected).value)
    else if !m.rules.confirmationRequired then Ok(m)
    else Ok(Bumped(m.(rules := m.rules.(confirmationRequired := false))))
  }

  datatype ContextWrite = ContextWrite(expected: int, name: string, deniesNew: bool, archived: bool)

  /** A new regular context starts with the cells its rule stamps. */
  function Stamped(m: Matrix, id: string): map<Pair, Origin> {
    if m.rules.values.newContexts != "allow" then m.cells
    else m.cells + map a | a in m.accounts && !m.accounts[a] :: Pair(a, id) := Rule
  }

  function ContextCreated(m: Matrix, permitted: bool, w: ContextWrite, nameOk: bool, id: string): Result<Matrix, Refusal>
    requires id !in m.contexts
  {
    if !nameOk || w.archived then Err(BadRequest)
    else if Fence(m, permitted, w.expected).Some? then Err(Fence(m, permitted, w.expected).value)
    else Ok(Bumped(m.(contexts := m.contexts[id := Context(w.name, Regular, w.deniesNew, false, 1)], cells := Stamped(m, id))))
  }

  /** Default and holding contexts cannot be archived; their guard raises. */
  function ContextUpdated(m: Matrix, permitted: bool, w: ContextWrite, nameOk: bool, id: string): Result<Matrix, Refusal> {
    if !nameOk then Err(BadRequest)
    else if Fence(m, permitted, w.expected).Some? then Err(Fence(m, permitted, w.expected).value)
    else if !Uuid(id) then Err(BadRequest)
    else if Lower(id) !in m.contexts then Err(NotFound)
    else
      var c := m.contexts[Lower(id)];
      if !c.kind.Regular? && w.archived then Err(Guarded)
      else
        Ok(Bumped(m.(contexts := m.contexts[Lower(id) := c.(name := w.name, deniesNew := w.deniesNew, archived := w.archived,
                                                            revision := c.revision + 1)])))
  }

  function ProjectSet(m: Matrix, permitted: bool, expected: int, project: string, known: bool, context: string): Result<Matrix, Refusal> {
    if !Uuid(context) || !Uuid(project) then Err(BadRequest)
    else if Fence(m, permitted, expected).Some? then Err(Fence(m, permitted, expected).value)
    else if !known then Err(NotFound)
    else if Lower(context) !in m.contexts || m.contexts[Lower(context)].archived then Err(NotFound)
    else Ok(Bumped(m.(projects := m.projects[Lower(project) := Lower(context)])))
  }

  // ------------------------------------------------------------------- rules

  predicate ValidRules(v: RuleValues) {
    && (v.newAccounts == "allow" || v.newAccounts == "ask") && (v.newContexts == "allow" || v.newContexts == "ask")
    && (v.newProjects == "default" || v.newProjects == "holding")
    && (v.newModels == "allow" || v.newModels == "shipped_only" || v.newModels == "deny")
  }

  datatype RulePatch = RulePatch(
    newAccounts: Option<string>, newContexts: Option<string>, newProjects: Option<string>, newModels: Option<string>) {

    predicate Empty() { newAccounts.None? && newContexts.None? && newProjects.None? && newModels.None? }

    function Apply(v: RuleValues): RuleValues {
      RuleValues(newAccounts.GetOr(v.newAccounts), newContexts.GetOr(v.newContexts), newProjects.GetOr(v.newProjects),
                 newModels.GetOr(v.newModels))
    }
  }

  const SAMPLE_RULES: RuleValues := RuleValues("ask", "ask", "default", "allow")

  /** `WriteRulePatch`: the patch is checked over sample values, then applied to the stored ones. */
  function RulesWritten(m: Matrix, permitted: bool, expected: int, patch: RulePatch): Result<Matrix, Refusal> {
    if patch.Empty() || !ValidRules(patch.Apply(SAMPLE_RULES)) then Err(BadRequest)
    else if Fence(m, permitted, expected).Some? then Err(Fence(m, permitted, expected).value)
    else
      var values := patch.Apply(m.rules.values);
      Ok(Bumped(m.(rules := m.rules.(values := values), autoAdd := values.newModels == "allow")))
  }

  // -------------------------------------------------- the catalog, unfenced

  /** Enrolling an account stamps its cells by rule, or has it wait for a person, and leaves the revision alone. */
  function Enrolled(m: Matrix, id: string): Matrix {
    var stamped :=
      if m.rules.values.newAccounts != "allow" then map[]
      else map c | c in m.contexts && OpenContext(m, c) && !m.contexts[c].deniesNew :: Pair(id, c) := Rule;
    m.(accounts := m.accounts[id := false], cells := m.cells + stamped,
       awaiting := if m.rules.values.newAccounts == "ask" then m.awaiting + {id} else m.awaiting)
  }

  function AccountArchived(m: Matrix, id: string): Matrix
    requires id in m.accounts
  {
    m.(accounts := m.accounts[id := true])
  }

  // --------------------------------------------------------- the transactions

  /** One account's row of a bulk change. */
  method RowOf(account: string, names: seq<string>, allowed: bool) returns (row: seq<Cell>)
    requires forall i, j :: 0 <= i < j < |names| ==> names[i] != names[j]
    ensures |row| == |names| && forall n :: 0 <= n < |names| ==> row[n] == Cell(account, names[n], allowed) && row[n] in row
    ensures forall c <- row :: c.account == account && c.context in names && c.allowed == allowed
    ensures forall x, y :: 0 <= x < y < |row| ==> PairOf(row[x]) != PairOf(row[y])
  {
    row := seq(|names|, n requires 0 <= n < |names| => Cell(account, names[n], allowed));
  }

  /** The open rows of a listing, sorted by id. */
  method OpenAccounts(m: Matrix, only: string) returns (ids: seq<string>)
    ensures forall id :: id in ids <==> OpenAccount(m, id) && (only == "" || id == Lower(only))
    ensures forall i, j :: 0 <= i < j < |ids| ==> ids[i] != ids[j]
  {
    ids := SortedSet(set id | id in m.accounts && !m.accounts[id] && (only == "" || id == Lower(only)));
  }

  method OpenContexts(m: Matrix, only: string) returns (ids: seq<string>)
    ensures forall id :: id in ids <==> OpenContext(m, id) && (only == "" || id == Lower(only))
    ensures forall i, j :: 0 <= i < j < |ids| ==> ids[i] != ids[j]
  {
    ids := SortedSet(set id | id in m.contexts && OpenContext(m, id) && (only == "" || id == Lower(only)));
  }

  method SortedSet(s: set<string>) returns (ids: seq<string>)
    ensures forall id :: id in ids <==> id in s
    ensures forall i, j :: 0 <= i < j < |ids| ==> ids[i] != ids[j]
  {
    var left := s;
    ids := [];
    while left != {}
      invariant left <= s
      invariant forall id :: id in ids <==> id in s && id !in left
      invariant forall i, j :: 0 <= i < j < |ids| ==> ids[i] != ids[j]
      decreases left
    {
      var id :| id in left;
      left := left - {id};
      ids := ids + [id];
    }
    var sorted := IdOrder.Sort(ids, (id: string) => id);
    SortKeepsDistinct(ids, sorted);
    ids := sorted;
  }

  lemma {:induction false} SortKeepsDistinct(ids: seq<string>, sorted: seq<string>)
    requires sorted == IdOrder.Sort(ids, (id: string) => id)
    requires forall i, j :: 0 <= i < j < |ids| ==> ids[i] != ids[j]
    ensures forall id :: id in sorted <==> id in ids
    ensures forall i, j :: 0 <= i < j < |sorted| ==> sorted[i] != sorted[j]
  {
    IdOrder.SortPermutes(ids, (id: string) => id);
    assert forall id :: id in sorted <==> id in multiset(sorted);
    assert forall id :: id in ids <==> id in multiset(ids);
    forall i, j | 0 <= i < j < |sorted|
      ensures sorted[i] != sorted[j]
    {
      Once(ids, sorted[i]);
      if sorted[i] == sorted[j] { Twice(sorted, i, j); }
    }
  }

  lemma {:induction false} Once(ids: seq<string>, id: string)
    requires forall i, j :: 0 <= i < j < |ids| ==> ids[i] != ids[j]
    ensures multiset(ids)[id] <= 1
  {
    if ids != [] {
      assert ids == [ids[0]] + ids[1..];
      Once(ids[1..], id);
      if id == ids[0] { assert id !in ids[1..]; }
    }
  }

  lemma {:induction false} Twice(ids: seq<string>, i: nat, j: nat)
    requires i < j < |ids| && ids[i] == ids[j]
    ensures multiset(ids)[ids[i]] >= 2
  {
    assert ids == ids[..j] + [ids[j]] + ids[j + 1..];
    assert ids[..j][i] == ids[i] && ids[i] in multiset(ids[..j]);
  }

  /** The stored matrix and its writers. */
  class MatrixStore {
    var rules: Rules
    var accounts: map<string, bool>
    var contexts: map<string, Context>
    var cells: map<Pair, Origin>
    var awaiting: set<string>
    var projects: map<string, string>
    var autoAdd: bool

    constructor (m: Matrix)
      ensures State() == m
    {
      rules, accounts, contexts, cells := m.rules, m.accounts, m.contexts, m.cells;
      awaiting, projects, autoAdd := m.awaiting, m.projects, m.autoAdd;
    }

    function State(): Matrix
      reads this
    {
      Matrix(rules, accounts, contexts, cells, awaiting, projects, autoAdd)
    }

    /** The cells a bulk change stands for, in account and context order. */
    method Listing(b: Bulk) returns (changes: seq<Cell>)
      ensures Lists(State(), b, changes)
    {
      var m := State();
      var ids := OpenAccounts(m, b.account);
      var names := OpenContexts(m, b.context);
      changes := [];
      for i := 0 to |ids|
        invariant forall c <- changes :: c.account in ids[..i] && c.context in names && c.allowed == b.allowed
        invariant forall k, n :: 0 <= k < i && 0 <= n < |names| ==> Cell(ids[k], names[n], b.allowed) in changes
        invariant forall x, y :: 0 <= x < y < |changes| ==> PairOf(changes[x]) != PairOf(changes[y])
      {
        assert ids[..i + 1] == ids[..i] + [ids[i]];
        assert ids[i] !in ids[..i];
        var row := RowOf(ids[i], names, b.allowed);
        changes := changes + row;
      }
      assert ids[..|ids|] == ids;
      forall p: Pair | InBulk(m, b, p)
        ensures exists c <- changes :: PairOf(c) == p
      {
        var k :| 0 <= k < |ids| && ids[k] == p.account;
        var n :| 0 <= n < |names| && names[n] == p.context;
        assert PairOf(Cell(ids[k], names[n], b.allowed)) == p;
      }
    }

    /** `WriteCells`: a save, or with a save's inverse cells and revision its undo. */
    method WriteCells(permitted: bool, w: CellWrite) returns (r: Result<CellResult, Refusal>, ghost listed: seq<Cell>)
      modifies this
      ensures if w.bulk.None? then listed == w.changes
              else old(Requested(State(), permitted, w)).None? ==> Lists(old(State()), w.bulk.value, listed)
      ensures match CellsWritten(old(State()), permitted, w, listed)
              case Err(e) => r == Err(e) && State() == old(State())
              case Ok(out) => r == Ok(out.1) && State() == out.0
    {
      hide Lists, Requested, ListedWritten;
      listed := w.changes;
      var refused := Requested(State(), permitted, w);
      if refused.Some? { return Err(refused.value), listed; }
      var changes := w.changes;
      if w.bulk.Some? {
        changes := Listing(w.bulk.value);
        listed := changes;
      }
      r := WriteListed(changes);
    }

    method WriteListed(listed: seq<Cell>) returns (r: Result<CellResult, Refusal>)
      modifies this`cells, this`awaiting, this`rules
      ensures match ListedWritten(old(State()), listed)
              case Err(e) => r == Err(e) && State() == old(State())
              case Ok(out) => r == Ok(out.1) && State() == out.0
    {
      hide Vet, Saved, AllLowered;
      if |listed| > MAX_CELLS { return Err(TooLarge); }
      var vetted := VetAll(State(), listed);
      if vetted.Err? { return Err(vetted.error); }
      var changes := AllLowered(listed);
      Save(changes);
      r := Ok(CellResult(rules.revision, changes, vetted.value));
    }

    /** A vetted save: the cells, the accounts that no longer wait, the revision. */
    method Save(changes: seq<Cell>)
      modifies this`cells, this`awaiting, this`rules
      ensures State() == Saved(old(State()), changes)
    {
      ApplyCells(changes);
      awaiting := awaiting - Touched(changes);
      rules := rules.(revision := rules.revision + 1);
    }

    /** The inserts and deletes of a save. */
    method ApplyCells(changes: seq<Cell>)
      modifies this`cells
      ensures cells == Written(old(cells), changes, |changes|)
    {
      hide Written;
      WrittenNothing(cells, changes);
      for i := 0 to |changes|
        invariant cells == Written(old(cells), changes, i)
      {
        WrittenStep(old(cells), changes, i);
        var c := changes[i];
        if c.allowed { cells := cells[PairOf(c) := Person]; } else { cells := cells - {PairOf(c)}; }
      }
    }

    method Confirm(permitted: bool, expected: int) returns (r: Result<int, Refusal>)
      modifies this`rules
      ensures match Confirmed(old(State()), permitted, expected)
              case Err(e) => r == Err(e) && State() == old(State())
              case Ok(m) => r == Ok(m.rules.revision) && State() == m
    {
      var refused := Fence(State(), permitted, expected);
      if refused.Some? { return Err(refused.value); }
      if rules.confirmationRequired {
        rules := rules.(confirmationRequired := false, revision := rules.revision + 1);
      }
      r := Ok(rules.revision);
    }

    /** `context` for a new one, whose id is fresh. */
    method CreateContext(permitted: bool, w: ContextWrite, nameOk: bool, id: string) returns (r: Result<int, Refusal>)
      requires id !in contexts
      modifies this`rules, this`contexts, this`cells
      ensures match ContextCreated(old(State()), permitted, w, nameOk, id)
              case Err(e) => r == Err(e) && State() == old(State())
              case Ok(m) => r == Ok(m.rules.revision) && State() == m
    {
      if !nameOk || w.archived { return Err(BadRequest); }
      var refused := Fence(State(), permitted, w.expected);
      if refused.Some? { return Err(refused.value); }
      cells := Stamped(State(), id);
      contexts := contexts[id := Context(w.name, Regular, w.deniesNew, false, 1)];
      rules := rules.(revision := rules.revision + 1);
      r := Ok(rules.revision);
    }

    /** `context` for a stored one. */
    method UpdateContext(permitted: bool, w: ContextWrite, nameOk: bool, id: string) returns (r: Result<int, Refusal>)
      modifies this`rules, this`contexts
      ensures match ContextUpdated(old(State()), permitted, w, nameOk, id)
              case Err(e) => r == Err(e) && State() == old(State())
              case Ok(m) => r == Ok(m.rules.revision) && State() == m
    {
      if !nameOk { return Err(BadRequest); }
      var refused := Fence(State(), permitted, w.expected);
      if refused.Some? { return Err(refused.value); }
      if !Uuid(id) { return Err(BadRequest); }
      if Lower(id) !in contexts { return Err(NotFound); }
      var c := contexts[Lower(id)];
      if !c.kind.Regular? && w.archived { return Err(Guarded); }
      contexts := contexts[Lower(id) := c.(name := w.name, deniesNew := w.deniesNew, archived := w.archived, revision := c.revision + 1)];
      rules := rules.(revision := rules.revision + 1);
      r := Ok(rules.revision);
    }

    method SetProject(permitted: bool, expected: int, project: string, known: bool, context: string) returns (r: Result<int, Refusal>)
      modifies this`rules, this`projects
      ensures match ProjectSet(old(State()), permitted, expected, project, known, context)
              case Err(e) => r == Err(e) && State() == old(State())
              case Ok(m) => r == Ok(m.rules.revision) && State() == m
    {
      if !Uuid(context) || !Uuid(project) { return Err(BadRequest); }
      var refused := Fence(State(), permitted, expected);
      if refused.Some? { return Err(refused.value); }
      if !known || Lower(context) !in contexts || contexts[Lower(context)].archived { return Err(NotFound); }
      projects := projects[Lower(project) := Lower(context)];
      rules := rules.(revision := rules.revision + 1);
      r := Ok(rules.revision);
    }

    method WriteRulePatch(permitted: bool, expected: int, patch: RulePatch) returns (r: Result<int, Refusal>)
      modifies this`rules, this`autoAdd
      ensures match RulesWritten(old(State()), permitted, expected, patch)
              case Err(e) => r == Err(e) && State() == old(State())
              case Ok(m) => r == Ok(m.rules.revision) && State() == m
    {
      if patch.Empty() || !ValidRules(patch.Apply(SAMPLE_RULES)) { return Err(BadRequest); }
      var refused := Fence(State(), permitted, expected);
      if refused.Some? { return Err(refused.value); }
      var v := rules.values;
      if patch.newAccounts.Some? { v := v.(newAccounts := patch.newAccounts.value); }
      if patch.newContexts.Some? { v := v.(newContexts := patch.newContexts.value); }
      if patch.newProjects.Some? { v := v.(newProjects := patch.newProjects.value); }
      if patch.newModels.Some? { v := v.(newModels := patch.newModels.value); }
      rules := rules.(values := v, revision := rules.revision + 1);
      autoAdd := v.newModels == "allow";
      r := Ok(rules.revision);
    }
  }

  lemma {:induction false} WrittenNothing(cells: map<Pair, Origin>, changes: seq<Cell>)
    ensures Written(cells, changes, 0) == cells
  {}

  lemma {:induction false} WrittenStep(cells: map<Pair, Origin>, changes: seq<Cell>, i: nat)
    requires i < |changes|
    ensures Written(cells, changes, i + 1) ==
            var c := changes[i];
            if c.allowed then Written(cells, changes, i)[PairOf(c) := Person] else Written(cells, changes, i) - {PairOf(c)}
  {}

  /** The validating loop with its map of pairs seen. */
  method VetAll(m: Matrix, changes: seq<Cell>) returns (r: Result<seq<Cell>, Refusal>)
    ensures r == Vet(m, changes, |changes|)
  {
    var undo: seq<Cell> := [];
    var seen: set<Pair> := {};
    for i := 0 to |changes|
      invariant Vet(m, changes, i) == Ok(undo)
      invariant forall p :: p in seen <==> exists j :: 0 <= j < i && PairOf(Lowered(changes[j])) == p
    {
      var c := changes[i];
      var l := Lowered(c);
      assert PairOf(l) in seen <==> Repeats(changes, i);
      if !Uuid(c.account) || !Uuid(c.context) || PairOf(l) in seen {
        VetFails(m, changes, i + 1, BadRequest);
        return Err(BadRequest);
      }
      seen := seen + {PairOf(l)};
      if !OpenAccount(m, l.account) || !OpenContext(m, l.context) {
        VetFails(m, changes, i + 1, NotFound);
        return Err(NotFound);
      }
      undo := undo + [Cell(l.account, l.context, PairOf(l) in m.cells)];
    }
    r := Ok(undo);
  }

  lemma {:induction false} VetFails(m: Matrix, changes: seq<Cell>, n: nat, e: Refusal)
    requires n <= |changes| && Vet(m, changes, n) == Err(e)
    ensures Vet(m, changes, |changes|) == Err(e)
    decreases |changes| - n
  {
    if n < |changes| { VetFails(m, changes, n + 1, e); }
  }
}
