/** What every interleaving of the matrix writers keeps, and what an undo undoes. */
module AccountUseLaws {
  import opened UuidText
  import opened Wrappers
  import opened AccountUse

  // ------------------------------------------------------ a save and its undo

  ghost predicate DistinctPairs(changes: seq<Cell>) {
    forall i, j :: 0 <= i < j < |changes| ==> PairOf(changes[i]) != PairOf(changes[j])
  }

  /** A save sets exactly its own pairs: those it allows are a person's from then on. */
  lemma {:induction false} WrittenAt(cells: map<Pair, Origin>, changes: seq<Cell>, n: nat, p: Pair)
    requires n <= |changes| && DistinctPairs(changes)
    ensures var w := Written(cells, changes, n);
            forall i :: 0 <= i < n && PairOf(changes[i]) == p ==> (p in w <==> changes[i].allowed) && (p in w ==> w[p] == Person)
    ensures var w := Written(cells, changes, n);
            (forall i :: 0 <= i < n ==> PairOf(changes[i]) != p) ==> (p in w <==> p in cells) && (p in w ==> w[p] == cells[p])
  {
    if n > 0 {
      WrittenAt(cells, changes, n - 1, p);
      WrittenStep(cells, changes, n - 1);
      hide Written;
    }
  }

  /** The inverse cells: the vetted pairs, each with what it was. */
  lemma {:induction false} VettedInverse(m: Matrix, changes: seq<Cell>, n: nat)
    requires n <= |changes| && Vet(m, changes, n).Ok?
    ensures var undo := Vet(m, changes, n).value;
            && |undo| == n
            && (forall i :: 0 <= i < n ==>
                  && Uuid(changes[i].account) && Uuid(changes[i].context)
                  && PairOf(undo[i]) == PairOf(Lowered(changes[i]))
                  && undo[i].allowed == (PairOf(undo[i]) in m.cells)
                  && OpenAccount(m, undo[i].account) && OpenContext(m, undo[i].context))
            && (forall i, j :: 0 <= i < j < n ==> PairOf(Lowered(changes[i])) != PairOf(Lowered(changes[j])))
  {
    hide Lowered, Uuid, OpenAccount, OpenContext;
    if n > 0 { VettedInverse(m, changes, n - 1); }
  }

  /** An inverse set is already in the form a save stores. */
  lemma {:induction false} InverseIsLower(changes: seq<Cell>, undo: seq<Cell>)
    requires |undo| == |changes| && forall i :: 0 <= i < |undo| ==> PairOf(undo[i]) == PairOf(Lowered(changes[i]))
    ensures AllLowered(undo) == undo
  {
    forall i | 0 <= i < |undo|
      ensures Lowered(undo[i]) == undo[i]
    {
      LowerTwice(changes[i].account);
      LowerTwice(changes[i].context);
      assert PairOf(undo[i]) == PairOf(Lowered(changes[i]));
      hide Lower;
    }
    assert AllLowered(undo) == undo;
  }

  /** The same pairs are allowed for every account of a set. */
  ghost predicate AgreeOn(accounts: set<string>, a: map<Pair, Origin>, b: map<Pair, Origin>) {
    forall p: Pair :: p.account in accounts ==> (p in a <==> p in b)
  }

  /** And by the same hand. */
  ghost predicate SameOn(accounts: set<string>, a: map<Pair, Origin>, b: map<Pair, Origin>) {
    forall p: Pair :: p.account in accounts ==> (p in a <==> p in b) && (p in a && p in b ==> a[p] == b[p])
  }

  ghost predicate SameWaiting(accounts: set<string>, a: set<string>, b: set<string>) {
    forall id <- accounts :: id in a <==> id in b
  }

  /** Every touched pair that was allowed was allowed by a person. */
  ghost predicate PersonsOnly(cells: map<Pair, Origin>, changes: seq<Cell>) {
    forall i :: 0 <= i < |changes| && PairOf(changes[i]) in cells ==> cells[PairOf(changes[i])] == Person
  }

  ghost predicate NoneWaits(awaiting: set<string>, changes: seq<Cell>) {
    forall i :: 0 <= i < |changes| ==> changes[i].account !in awaiting
  }

  /** The undo of a save: its pairs, each with what it was. */
  ghost predicate Inverts(cells: map<Pair, Origin>, changes: seq<Cell>, undo: seq<Cell>) {
    && |undo| == |changes| && DistinctPairs(changes)
    && forall i :: 0 <= i < |changes| ==> PairOf(undo[i]) == PairOf(changes[i]) && undo[i].allowed == (PairOf(changes[i]) in cells)
  }

  /** One pair after a save and its undo: as it was, but allowed by a person if the save touched it. */
  lemma {:induction false} InverseAt(cells: map<Pair, Origin>, base: map<Pair, Origin>, changes: seq<Cell>, undo: seq<Cell>, p: Pair)
    requires Inverts(cells, changes, undo)
    requires var saved := Written(cells, changes, |changes|);
             (p in saved <==> p in base) && (p in saved && p in base ==> saved[p] == base[p])
    ensures var after := Written(base, undo, |undo|);
            && (p in after <==> p in cells)
            && (p in cells ==> if exists i :: 0 <= i < |changes| && PairOf(changes[i]) == p then after[p] == Person else after[p] == cells[p])
  {
    assert DistinctPairs(undo);
    WrittenAt(cells, changes, |changes|, p);
    WrittenAt(base, undo, |undo|, p);
    hide Written, DistinctPairs;
    if exists i :: 0 <= i < |changes| && PairOf(changes[i]) == p {
      var i :| 0 <= i < |changes| && PairOf(changes[i]) == p;
      assert PairOf(undo[i]) == p;
    } else {
      assert forall i :: 0 <= i < |undo| ==> PairOf(undo[i]) != p;
    }
  }

  /**
   * Saving the inverse cells over the saved ones gives back the allowed
   * relation, and who allowed it exactly when persons had.
   */
  lemma {:induction false} InverseRestores(accounts: set<string>, cells: map<Pair, Origin>, base: map<Pair, Origin>, changes: seq<Cell>, undo: seq<Cell>)
    requires Inverts(cells, changes, undo) && forall i :: 0 <= i < |changes| ==> changes[i].account in accounts
    requires SameOn(accounts, Written(cells, changes, |changes|), base)
    ensures AgreeOn(accounts, Written(base, undo, |undo|), cells)
    ensures SameOn(accounts, Written(base, undo, |undo|), cells) <==> PersonsOnly(cells, changes)
  {
    hide Written, Inverts;
    var after := Written(base, undo, |undo|);
    forall p: Pair | p.account in accounts
      ensures p in after <==> p in cells
      ensures p in cells ==> if exists i :: 0 <= i < |changes| && PairOf(changes[i]) == p then after[p] == Person else after[p] == cells[p]
    {
      InverseAt(cells, base, changes, undo, p);
    }
    if SameOn(accounts, after, cells) {
      forall i | 0 <= i < |changes| && PairOf(changes[i]) in cells
        ensures cells[PairOf(changes[i])] == Person
      {
        assert after[PairOf(changes[i])] == Person;
      }
    }
  }

  /** Those who wait after a save and its undo: as before exactly when nobody touched was waiting. */
  lemma {:induction false} UndoneWaiting(accounts: set<string>, awaiting: set<string>, base: set<string>, changes: seq<Cell>, undo: seq<Cell>)
    requires |undo| == |changes| && forall i :: 0 <= i < |changes| ==> PairOf(undo[i]) == PairOf(changes[i]) && changes[i].account in accounts
    requires SameWaiting(accounts, awaiting - Touched(changes), base)
    ensures SameWaiting(accounts, base - Touched(undo), awaiting) <==> NoneWaits(awaiting, changes)
  {
    forall i | 0 <= i < |changes|
      ensures changes[i].account == undo[i].account && changes[i].account in Touched(changes) && undo[i].account in Touched(undo)
    {
      assert PairOf(undo[i]) == PairOf(changes[i]) && changes[i] in changes && undo[i] in undo;
    }
    forall id | id in Touched(undo)
      ensures exists i :: 0 <= i < |changes| && changes[i].account == id
    {
      var c :| c in undo && c.account == id;
      var i :| 0 <= i < |undo| && undo[i] == c;
      assert changes[i].account == id;
    }
    assert Touched(undo) <= Touched(changes);
  }

  // --------------------------------------------------------- interleaved runs

  datatype Op =
    | CellsOp(permitted: bool, write: CellWrite, listed: seq<Cell>)
    | ConfirmOp(permitted: bool, expected: int)
    | CreateContextOp(permitted: bool, context: ContextWrite, nameOk: bool, id: string)
    | UpdateContextOp(permitted: bool, context: ContextWrite, nameOk: bool, id: string)
    | ProjectOp(permitted: bool, expected: int, project: string, known: bool, contextId: string)
    | RulesOp(permitted: bool, expected: int, patch: RulePatch)
    | ArchiveOp(id: string)
    | EnrolOp(id: string)

  predicate OpAllowed(m: Matrix, op: Op) {
    match op
    case CreateContextOp(_, _, _, id) => id !in m.contexts
    case ArchiveOp(id) => id in m.accounts
    case EnrolOp(id) => id !in m.accounts
    case _ => true
  }

  function Outcome(m: Matrix, op: Op): Result<Matrix, Refusal>
    requires OpAllowed(m, op)
  {
    match op
    case CellsOp(permitted, w, listed) =>
      (match CellsWritten(m, permitted, w, listed) case Ok(out) => Ok(out.0) case Err(e) => Err(e))
    case ConfirmOp(permitted, expected) => Confirmed(m, permitted, expected)
    case CreateContextOp(permitted, w, nameOk, id) => ContextCreated(m, permitted, w, nameOk, id)
    case UpdateContextOp(permitted, w, nameOk, id) => ContextUpdated(m, permitted, w, nameOk, id)
    case ProjectOp(permitted, expected, project, known, context) => ProjectSet(m, permitted, expected, project, known, context)
    case RulesOp(permitted, expected, patch) => RulesWritten(m, permitted, expected, patch)
    case ArchiveOp(id) => Ok(AccountArchived(m, id))
    case EnrolOp(id) => Ok(Enrolled(m, id))
  }

  /** What a writer says it saw. */
  function Expected(op: Op): Option<int> {
    match op
    case CellsOp(_, w, _) => Some(w.expected)
    case ConfirmOp(_, expected) => Some(expected)
    case CreateContextOp(_, w, _, _) => Some(w.expected)
    case UpdateContextOp(_, w, _, _) => Some(w.expected)
    case ProjectOp(_, expected, _, _, _) => Some(expected)
    case RulesOp(_, expected, _) => Some(expected)
    case ArchiveOp(_) => None
    case EnrolOp(_) => None
  }

  function Apply(m: Matrix, op: Op): Matrix
    requires OpAllowed(m, op)
  {
    match Outcome(m, op) case Ok(next) => next case Err(_) => m
  }

  ghost predicate Run(m: Matrix, ops: seq<Op>, t: Matrix)
    decreases |ops|
  {
    if ops == [] then m == t else OpAllowed(m, ops[0]) && Run(Apply(m, ops[0]), ops[1..], t)
  }

  /** For accounts that were there, allowing and waiting, and all rules, change only with the revision. */
  ghost predicate Fenced(m: Matrix, t: Matrix) {
    && t.rules.revision >= m.rules.revision && m.accounts.Keys <= t.accounts.Keys
    && (t.rules.revision == m.rules.revision ==>
          && SameOn(m.accounts.Keys, m.cells, t.cells) && SameWaiting(m.accounts.Keys, m.awaiting, t.awaiting)
          && t.rules == m.rules && t.contexts == m.contexts && t.projects == m.projects && t.autoAdd == m.autoAdd)
  }

  /**
   * An accepted write expected the current revision and raises it by exactly
   * one; the only accepted write that does not is a confirmation nobody asked
   * for, which changes nothing. A stale write is refused.
   */
  lemma {:induction false} AcceptedWritesAdvance(m: Matrix, op: Op)
    requires OpAllowed(m, op) && !op.ArchiveOp? && !op.EnrolOp?
    ensures Outcome(m, op).Ok? ==>
              && Expected(op) == Some(m.rules.revision)
              && (Apply(m, op).rules.revision == m.rules.revision + 1
                  || (op.ConfirmOp? && !m.rules.confirmationRequired && Apply(m, op) == m))
    ensures Outcome(m, op).Err? ==> Apply(m, op) == m
    ensures Expected(op) != Some(m.rules.revision) ==> Outcome(m, op).Err?
  {
    hide Vet, Written, Touched, AllLowered, Stamped, ScopeOk, Uuid, Lower, ValidRules, OpenAccount, OpenContext;
  }

  lemma {:induction false} AccountsGrow(m: Matrix, op: Op)
    requires OpAllowed(m, op)
    ensures m.accounts.Keys <= Apply(m, op).accounts.Keys
  {
    hide Vet, Written, Touched, AllLowered, Stamped, ScopeOk, Uuid, Lower, ValidRules, OpenAccount, OpenContext;
  }

  lemma {:induction false} StepIsFenced(m: Matrix, op: Op)
    requires OpAllowed(m, op)
    ensures Fenced(m, Apply(m, op))
  {
    if !op.ArchiveOp? && !op.EnrolOp? {
      AcceptedWritesAdvance(m, op);
      AccountsGrow(m, op);
    }
    hide CellsWritten, Confirmed, ContextCreated, ContextUpdated, ProjectSet, RulesWritten, OpenContext;
  }

  lemma {:induction false} RunsAreFenced(m: Matrix, ops: seq<Op>, t: Matrix)
    requires Run(m, ops, t)
    ensures Fenced(m, t)
    decreases |ops|
  {
    hide Apply, OpAllowed;
    if ops != [] {
      StepIsFenced(m, ops[0]);
      RunsAreFenced(Apply(m, ops[0]), ops[1..], t);
    }
  }

  /** What a save and an undo of it are: accepted, in this order, with any run between. */
  ghost predicate SavedAndUndone(m: Matrix, save: Op, ops: seq<Op>, t: Matrix, permitted: bool) {
    && save.CellsOp? && CellsWritten(m, save.permitted, save.write, save.listed).Ok?
    && var saved := CellsWritten(m, save.permitted, save.write, save.listed).value;
       Run(saved.0, ops, t) && CellsWritten(t, permitted, UndoOf(saved.1), saved.1.undo).Ok?
  }

  /** The undo a person sends: the inverse cells and the revision the save returned. */
  function UndoOf(result: CellResult): CellWrite { CellWrite(result.revision, result.undo, None) }

  function Undone(m: Matrix, save: Op, ops: seq<Op>, t: Matrix, permitted: bool): Matrix
    requires SavedAndUndone(m, save, ops, t, permitted)
  {
    var saved := CellsWritten(m, save.permitted, save.write, save.listed).value;
    CellsWritten(t, permitted, UndoOf(saved.1), saved.1.undo).value.0
  }

  /**
   * An undo accepted after any interleaving of the matrix writers, archivals
   * and enrolments gives every account there was exactly what it was allowed
   * before the save. Who allowed it is given back exactly when persons had
   * allowed the touched pairs, and the waiting list exactly when no touched
   * account was on it.
   */
  lemma {:induction false} AcceptedUndoRestores(m: Matrix, save: Op, ops: seq<Op>, t: Matrix, permitted: bool)
    requires SavedAndUndone(m, save, ops, t, permitted)
    ensures var undone := Undone(m, save, ops, t, permitted);
            && AgreeOn(m.accounts.Keys, undone.cells, m.cells)
            && (SameOn(m.accounts.Keys, undone.cells, m.cells) <==> PersonsOnly(m.cells, AllLowered(save.listed)))
            && (SameWaiting(m.accounts.Keys, undone.awaiting, m.awaiting) <==> NoneWaits(m.awaiting, AllLowered(save.listed)))
  {
    var (after, result) := CellsWritten(m, save.permitted, save.write, save.listed).value;
    var undo := UndoOf(result);
    RunsAreFenced(after, ops, t);
    AcceptedUndoIsCurrent(t, permitted, undo);
    SavedParts(m, save.permitted, save.write, save.listed);
    SavedParts(t, permitted, undo, result.undo);
    SavedInverse(m, save.listed, result.changes, result.undo);
    hide CellsWritten, Vet, Written, Run, AllLowered, Touched, AgreeOn, SameOn, SameWaiting, PersonsOnly, NoneWaits, Inverts, Requested;
    InvertedPairs(m.cells, result.changes, result.undo);
    InverseRestores(m.accounts.Keys, m.cells, t.cells, result.changes, result.undo);
    UndoneWaiting(m.accounts.Keys, m.awaiting, t.awaiting, result.changes, result.undo);
  }

  lemma {:induction false} InvertedPairs(cells: map<Pair, Origin>, changes: seq<Cell>, undo: seq<Cell>)
    requires Inverts(cells, changes, undo)
    ensures |undo| == |changes| && forall i :: 0 <= i < |changes| ==> PairOf(undo[i]) == PairOf(changes[i])
  {}

  lemma {:induction false} SavedInverse(m: Matrix, listed: seq<Cell>, changes: seq<Cell>, undo: seq<Cell>)
    requires Vet(m, listed, |listed|) == Ok(undo) && changes == AllLowered(listed)
    ensures Inverts(m.cells, changes, undo) && AllLowered(undo) == undo
    ensures forall i :: 0 <= i < |changes| ==> changes[i].account in m.accounts.Keys
  {
    VettedInverse(m, listed, |listed|);
    InverseIsLower(listed, undo);
    hide Vet, Uuid;
    LoweredPairs(listed, changes);
    forall i | 0 <= i < |changes|
      ensures changes[i].account in m.accounts.Keys
    {
      assert PairOf(undo[i]) == PairOf(changes[i]) && OpenAccount(m, undo[i].account);
    }
  }

  lemma {:induction false} LoweredPairs(listed: seq<Cell>, changes: seq<Cell>)
    requires changes == AllLowered(listed)
    requires forall i, j :: 0 <= i < j < |listed| ==> PairOf(Lowered(listed[i])) != PairOf(Lowered(listed[j]))
    ensures |changes| == |listed| && DistinctPairs(changes)
    ensures forall i :: 0 <= i < |listed| ==> PairOf(changes[i]) == PairOf(Lowered(listed[i]))
  {
    hide Lower;
  }

  lemma {:induction false} AcceptedUndoIsCurrent(t: Matrix, permitted: bool, w: CellWrite)
    requires Requested(t, permitted, w).None?
    ensures w.expected == t.rules.revision
  {}

  lemma {:induction false} SavedParts(m: Matrix, permitted: bool, w: CellWrite, listed: seq<Cell>)
    requires CellsWritten(m, permitted, w, listed).Ok?
    ensures var (after, result) := CellsWritten(m, permitted, w, listed).value;
            && Requested(m, permitted, w).None?
            && Vet(m, listed, |listed|) == Ok(result.undo)
            && result.changes == AllLowered(listed)
            && result.revision == after.rules.revision == m.rules.revision + 1
            && after.cells == Written(m.cells, result.changes, |result.changes|) && after.accounts == m.accounts
            && after.awaiting == m.awaiting - Touched(result.changes)
  {
    hide Vet, Written, Requested, AllLowered, Touched;
  }

  // ------------------------------------------------------ what an undo forgets

  const SOME_ID: string := seq(36, i requires 0 <= i < 36 => if i == 8 || i == 13 || i == 18 || i == 23 then '-' else 'a')

  const STAMPED: Matrix := Matrix(
    Rules(RuleValues("ask", "allow", "default", "allow"), 7, false), map[SOME_ID := false],
    map[SOME_ID := Context("c", Regular, false, false, 1)], map[Pair(SOME_ID, SOME_ID) := Rule], {SOME_ID}, map[], true)

  lemma {:induction false} SomeIdIsLower()
    ensures Uuid(SOME_ID) && Lower(SOME_ID) == SOME_ID
  {}

  lemma {:induction false} OneCellWritten(m: Matrix, c: Cell)
    requires Uuid(c.account) && Uuid(c.context) && Lowered(c) == c
    requires OpenAccount(m, c.account) && OpenContext(m, c.context) && m.rules.revision >= 1
    ensures CellsWritten(m, true, CellWrite(m.rules.revision, [c], None), [c]) ==
            Ok((Saved(m, [c]), CellResult(m.rules.revision + 1, [c], [Cell(c.account, c.context, PairOf(c) in m.cells)])))
  {
    assert AllLowered([c]) == [c];
    hide Uuid, Lower, OpenAccount, OpenContext, Written, Touched, AllLowered, Bumped;
    assert Vet(m, [c], 0) == Ok([]) && !Repeats([c], 0);
    assert Vet(m, [c], 1) == Ok([] + [Cell(c.account, c.context, PairOf(c) in m.cells)]);
    assert Requested(m, true, CellWrite(m.rules.revision, [c], None)).None?;
    var undo := [Cell(c.account, c.context, PairOf(c) in m.cells)];
    assert [] + undo == undo;
    hide Vet, Saved, Requested;
  }

  lemma {:induction false} OneCellSaved(m: Matrix, c: Cell)
    ensures Saved(m, [c]).cells == if c.allowed then m.cells[PairOf(c) := Person] else m.cells - {PairOf(c)}
    ensures Saved(m, [c]).awaiting == m.awaiting - {c.account}
  {
    WrittenNothing(m.cells, [c]);
    WrittenStep(m.cells, [c], 0);
    assert Touched([c]) == {c.account};
    hide Written;
  }

  /** An account that waits, denied the context its rule stamped: the undo leaves a person's cell, and nobody waits. */
  lemma {:induction false} UndoForgets()
    ensures var cell := Cell(SOME_ID, SOME_ID, false);
            var save := CellsOp(true, CellWrite(7, [cell], None), [cell]);
            var saved := Apply(STAMPED, save);
            && SavedAndUndone(STAMPED, save, [], saved, true)
            && var undone := Undone(STAMPED, save, [], saved, true);
               undone.cells == map[Pair(SOME_ID, SOME_ID) := Person] && undone.awaiting == {}
  {
    hide Vet, Written, Lower, Uuid, AllLowered, SOME_ID, Saved;
    SomeIdIsLower();
    var cell := Cell(SOME_ID, SOME_ID, false);
    var back := Cell(SOME_ID, SOME_ID, true);
    OneCellWritten(STAMPED, cell);
    OneCellSaved(STAMPED, cell);
    var saved := Saved(STAMPED, [cell]);
    SavedKeeps(STAMPED, [cell]);
    OneCellWritten(saved, back);
    OneCellSaved(saved, back);
  }

  lemma {:induction false} SavedKeeps(m: Matrix, changes: seq<Cell>)
    ensures var t := Saved(m, changes);
            t.accounts == m.accounts && t.contexts == m.contexts && t.rules == m.rules.(revision := m.rules.revision + 1)
  {}

  // ------------------------------------------------- what every run keeps

  /**
   * The matrix hangs together: cells join accounts and contexts there are, none
   * of them a holding context; those who wait are accounts; projects belong to
   * contexts there are; the permanent contexts are not archived.
   */
  ghost predicate Grounded(m: Matrix) {
    && (forall p <- m.cells :: p.account in m.accounts && p.context in m.contexts && !m.contexts[p.context].kind.Holding?)
    && (forall id <- m.awaiting :: id in m.accounts)
    && (forall x <- m.projects :: m.projects[x] in m.contexts)
    && (forall c <- m.contexts :: !m.contexts[c].kind.Regular? ==> !m.contexts[c].archived)
  }

  lemma {:induction false} WrittenPairs(m: Matrix, changes: seq<Cell>, n: nat, p: Pair)
    requires n <= |changes| && p in Written(m.cells, changes, n)
    ensures p in m.cells || exists c <- changes :: PairOf(c) == p
  {
    if n > 0 {
      WrittenStep(m.cells, changes, n - 1);
      hide Written;
      if p in Written(m.cells, changes, n - 1) { WrittenPairs(m, changes, n - 1, p); } else { assert changes[n - 1] in changes; }
    }
  }

  lemma {:induction false} CellsStayGrounded(m: Matrix, permitted: bool, w: CellWrite, listed: seq<Cell>)
    requires Grounded(m) && CellsWritten(m, permitted, w, listed).Ok?
    ensures Grounded(CellsWritten(m, permitted, w, listed).value.0)
  {
    var (after, result) := CellsWritten(m, permitted, w, listed).value;
    SavedParts(m, permitted, w, listed);
    VettedInverse(m, listed, |listed|);
    assert after == Saved(m, result.changes);
    SavedKeeps(m, result.changes);
    hide CellsWritten, Vet, Uuid, Written, Saved, Touched;
    forall p | p in after.cells
      ensures p.account in m.accounts && p.context in m.contexts && !m.contexts[p.context].kind.Holding?
    {
      WrittenPairs(m, result.changes, |result.changes|, p);
      if p !in m.cells {
        var c :| c in result.changes && PairOf(c) == p;
        var i :| 0 <= i < |listed| && result.changes[i] == c;
        assert OpenAccount(m, result.undo[i].account) && OpenContext(m, result.undo[i].context);
        assert PairOf(result.undo[i]) == PairOf(Lowered(listed[i]));
      }
    }
    assert after.awaiting <= m.awaiting;
    assert after.projects == m.projects by { SavedRest(m, result.changes); }
  }

  lemma {:induction false} SavedRest(m: Matrix, changes: seq<Cell>)
    ensures Saved(m, changes).projects == m.projects && Saved(m, changes).autoAdd == m.autoAdd
  {}

  lemma {:induction false} StepStaysGrounded(m: Matrix, op: Op)
    requires Grounded(m) && OpAllowed(m, op)
    ensures Grounded(Apply(m, op))
  {
    hide CellsWritten, Uuid, Lower, ValidRules, ScopeOk;
    if op.CellsOp? && CellsWritten(m, op.permitted, op.write, op.listed).Ok? {
      hide Grounded;
      CellsStayGrounded(m, op.permitted, op.write, op.listed);
    }
  }

  lemma {:induction false} RunsStayGrounded(m: Matrix, ops: seq<Op>, t: Matrix)
    requires Grounded(m) && Run(m, ops, t)
    ensures Grounded(t)
    decreases |ops|
  {
    hide Apply, OpAllowed, Grounded;
    if ops != [] {
      StepStaysGrounded(m, ops[0]);
      RunsStayGrounded(Apply(m, ops[0]), ops[1..], t);
    }
  }

  /** Contexts stay, keep their kind, and number their changes. */
  ghost predicate ContextsKept(m: Matrix, t: Matrix) {
    forall c <- m.contexts ::
      c in t.contexts && t.contexts[c].kind == m.contexts[c].kind && t.contexts[c].revision >= m.contexts[c].revision
      && (t.contexts[c].revision == m.contexts[c].revision ==> t.contexts[c] == m.contexts[c])
  }

  lemma {:induction false} RunsKeepContexts(m: Matrix, ops: seq<Op>, t: Matrix)
    requires Run(m, ops, t)
    ensures ContextsKept(m, t)
    ensures !m.rules.confirmationRequired ==> !t.rules.confirmationRequired
    decreases |ops|
  {
    hide Apply, OpAllowed;
    if ops != [] {
      StepKeepsContexts(m, ops[0]);
      RunsKeepContexts(Apply(m, ops[0]), ops[1..], t);
    }
  }

  lemma {:induction false} StepKeepsContexts(m: Matrix, op: Op)
    requires OpAllowed(m, op)
    ensures ContextsKept(m, Apply(m, op))
    ensures !m.rules.confirmationRequired ==> !Apply(m, op).rules.confirmationRequired
  {
    hide Vet, Written, Touched, AllLowered, Stamped, ScopeOk, Uuid, Lower, ValidRules, OpenAccount, OpenContext, Fence;
  }

  // ------------------------------------------- single writers and their undo

  /** A confirmation settles the question: it is never open again, and confirming once more changes nothing. */
  lemma {:induction false} ConfirmationIsFinal(m: Matrix, permitted: bool, expected: int, ops: seq<Op>, t: Matrix)
    requires Confirmed(m, permitted, expected).Ok? && Run(Confirmed(m, permitted, expected).value, ops, t)
    ensures !t.rules.confirmationRequired
    ensures t.rules.revision >= 1 ==> Confirmed(t, true, t.rules.revision) == Ok(t)
    ensures var after := Confirmed(m, permitted, expected).value;
            after.cells == m.cells && after.contexts == m.contexts && after.awaiting == m.awaiting && after.rules.values == m.rules.values
  {
    hide Run, ContextsKept;
    RunsKeepContexts(Confirmed(m, permitted, expected).value, ops, t);
  }

  /** A new context is used by nobody, or by rule by every open account; other contexts are used as before. */
  lemma {:induction false} CreatedContextUse(m: Matrix, permitted: bool, w: ContextWrite, nameOk: bool, id: string)
    requires Grounded(m) && id !in m.contexts && ContextCreated(m, permitted, w, nameOk, id).Ok?
    ensures var t := ContextCreated(m, permitted, w, nameOk, id).value;
            && OpenContext(t, id)
            && (forall a: string ::
                  Pair(a, id) in t.cells <==> m.rules.values.newContexts == "allow" && OpenAccount(m, a))
            && (forall p: Pair :: p.context != id ==> (p in t.cells <==> p in m.cells) && (p in t.cells && p in m.cells ==> t.cells[p] == m.cells[p]))
  {
    hide Fence;
    assert forall p <- m.cells :: p.context != id;
  }

  /** The write that gives a context back what it said before. */
  function PriorWrite(m: Matrix, id: string): ContextWrite
    requires id in m.contexts
  {
    var c := m.contexts[id];
    ContextWrite(m.rules.revision + 1, c.name, c.deniesNew, c.archived)
  }

  /** Everything but how often a context and the rules were written. */
  ghost predicate SameButRevisions(m: Matrix, t: Matrix, id: string) {
    && id in m.contexts && id in t.contexts
    && t == m.(rules := m.rules.(revision := t.rules.revision),
               contexts := m.contexts[id := m.contexts[id].(revision := t.contexts[id].revision)])
  }

  /** An update, archiving included, is undone by the write of what was there: nobody's use was touched. */
  lemma {:induction false} ContextUpdateUndone(m: Matrix, permitted: bool, w: ContextWrite, nameOk: bool, id: string)
    requires Grounded(m) && ContextUpdated(m, permitted, w, nameOk, id).Ok?
    ensures Lower(id) in m.contexts
    ensures var t := ContextUpdated(m, permitted, w, nameOk, id).value;
            var back := ContextUpdated(t, permitted, PriorWrite(m, Lower(id)), true, id);
            && t.contexts[Lower(id)].archived == w.archived
            && back.Ok? && SameButRevisions(m, back.value, Lower(id))
  {
    hide Uuid, Lower;
    var t := ContextUpdated(m, permitted, w, nameOk, id).value;
    var back := ContextUpdated(t, permitted, PriorWrite(m, Lower(id)), true, id);
    var x := Lower(id);
    assert back.Ok?;
    assert back.value.contexts == m.contexts[x := m.contexts[x].(revision := back.value.contexts[x].revision)];
  }

  /** A project moves to an unarchived context, and setting its earlier unarchived one moves it back. */
  lemma {:induction false} ProjectMovedBack(m: Matrix, permitted: bool, expected: int, project: string, context: string, earlier: string)
    requires ProjectSet(m, permitted, expected, project, true, context).Ok?
    requires Lower(project) in m.projects && Uuid(earlier) && Lower(earlier) == m.projects[Lower(project)]
    ensures var t := ProjectSet(m, permitted, expected, project, true, context).value;
            var back := ProjectSet(t, permitted, t.rules.revision, project, true, earlier);
            && t.projects[Lower(project)] in t.contexts && !t.contexts[t.projects[Lower(project)]].archived
            && (back.Ok? <==> Lower(earlier) in m.contexts && !m.contexts[Lower(earlier)].archived)
            && (back.Ok? ==> back.value == m.(rules := m.rules.(revision := m.rules.revision + 2)))
  {
    hide Uuid, Lower;
    var t := ProjectSet(m, permitted, expected, project, true, context).value;
    var back := ProjectSet(t, permitted, t.rules.revision, project, true, earlier);
    if back.Ok? { assert back.value.projects == m.projects; }
  }

  // ------------------------------------------------------------------- rules

  /** The stored rules are valid and the model switch mirrors them. */
  ghost predicate RulesSound(m: Matrix) {
    ValidRules(m.rules.values) && (m.autoAdd <==> m.rules.values.newModels == "allow")
  }

  /** A patch that is valid over sample values is valid over any stored ones; it sets the rules it names and leaves the others alone. */
  lemma {:induction false} PatchStaysValid(patch: RulePatch, v: RuleValues)
    requires ValidRules(v) && ValidRules(patch.Apply(SAMPLE_RULES))
    ensures ValidRules(patch.Apply(v))
    ensures patch.Apply(v).newAccounts == match patch.newAccounts { case None => v.newAccounts case Some(x) => x }
    ensures patch.Apply(v).newContexts == match patch.newContexts { case None => v.newContexts case Some(x) => x }
    ensures patch.Apply(v).newProjects == match patch.newProjects { case None => v.newProjects case Some(x) => x }
    ensures patch.Apply(v).newModels == match patch.newModels { case None => v.newModels case Some(x) => x }
  {
    assert patch.Apply(v).newAccounts == v.newAccounts || patch.Apply(v).newAccounts == patch.Apply(SAMPLE_RULES).newAccounts;
    assert patch.Apply(v).newContexts == v.newContexts || patch.Apply(v).newContexts == patch.Apply(SAMPLE_RULES).newContexts;
    assert patch.Apply(v).newProjects == v.newProjects || patch.Apply(v).newProjects == patch.Apply(SAMPLE_RULES).newProjects;
    assert patch.Apply(v).newModels == v.newModels || patch.Apply(v).newModels == patch.Apply(SAMPLE_RULES).newModels;
  }

  lemma {:induction false} RunsKeepRulesSound(m: Matrix, ops: seq<Op>, t: Matrix)
    requires RulesSound(m) && Run(m, ops, t)
    ensures RulesSound(t)
    decreases |ops|
  {
    if ops != [] {
      var op := ops[0];
      StepKeepsRules(m, op);
      RunsKeepRulesSound(Apply(m, op), ops[1..], t);
    }
    hide Apply, OpAllowed, RulesSound;
  }

  lemma {:induction false} StepKeepsRules(m: Matrix, op: Op)
    requires RulesSound(m) && OpAllowed(m, op)
    ensures RulesSound(Apply(m, op))
  {
    match op
    case RulesOp(permitted, expected, patch) =>
      if ValidRules(patch.Apply(SAMPLE_RULES)) { PatchStaysValid(patch, m.rules.values); }
      hide ValidRules;
    case _ =>
      hide ValidRules, Vet, Written, Touched, AllLowered, Stamped, ScopeOk, Uuid, Lower, OpenAccount, OpenContext, Fence;
  }
}
