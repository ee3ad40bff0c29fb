/**
 * Which writes of the account/context matrix are accepted, and everything each
 * one changes, said of the request and the stored rows alone
 * (internal/accountuse/writes.go, policy.go).
 */
module AccountUsePromise {
  import opened UuidText
  import opened Wrappers
  import opened AccountUse
  import opened AccountUseLaws

  /** `low` is `s` with its capitals made small. */
  predicate IsLower(s: string, low: string) {
    |low| == |s| && forall i :: 0 <= i < |s| ==> low[i] as int == s[i] as int + if 'A' <= s[i] <= 'Z' then 32 else 0
  }

  lemma {:induction false} LowerTells(s: string)
    ensures IsLower(s, Lower(s))
  {}

  /** A permitted person who saw the current revision. */
  predicate Current(m: Matrix, permitted: bool, expected: int) { permitted && expected == m.rules.revision >= 1 }

  lemma {:induction false} FenceTells(m: Matrix, permitted: bool, expected: int)
    ensures Fence(m, permitted, expected) ==
            if Current(m, permitted, expected) then None else Some(if permitted then Conflict else Forbidden)
  {}

  // ------------------------------------------------------------------ a save

  /** A bulk change alone, or one to a thousand cells. */
  predicate Bounded(w: CellWrite) { if w.bulk.Some? then w.changes == [] else 1 <= |w.changes| <= 1000 }

  /** Everything, or one account, or one context. */
  predicate WellScoped(b: Bulk) {
    && (b.scope == "all" || b.scope == "account" || b.scope == "context")
    && (if b.scope == "account" then Uuid(b.account) else b.account == "")
    && (if b.scope == "context" then Uuid(b.context) else b.context == "")
  }

  predicate AccountIsOpen(m: Matrix, id: string) { id in m.accounts && m.accounts[id] == false }

  predicate ContextIsOpen(m: Matrix, id: string) { id in m.contexts && m.contexts[id].kind != Holding && !m.contexts[id].archived }

  /** The one account or context of a bulk change is there and open. */
  predicate HasTarget(m: Matrix, b: Bulk) {
    && (b.scope == "account" ==> AccountIsOpen(m, Lower(b.account))) && (b.scope == "context" ==> ContextIsOpen(m, Lower(b.context)))
  }

  predicate InScope(b: Bulk, account: string, context: string) {
    && (b.scope == "account" ==> account == Lower(b.account)) && (b.scope == "context" ==> context == Lower(b.context))
  }

  predicate Named(c: Cell, account: string, context: string) { Lower(c.account) == account && Lower(c.context) == context }

  /** A listed cell that names two ids, and a pair no earlier one named. */
  predicate WellFormed(changes: seq<Cell>, i: nat)
    requires i < |changes|
  {
    && Uuid(changes[i].account) && Uuid(changes[i].context)
    && forall j :: 0 <= j < i ==> !Named(changes[j], Lower(changes[i].account), Lower(changes[i].context))
  }

  predicate Settable(m: Matrix, changes: seq<Cell>, i: nat)
    requires i < |changes|
  {
    WellFormed(changes, i) && AccountIsOpen(m, Lower(changes[i].account)) && ContextIsOpen(m, Lower(changes[i].context))
  }

  lemma {:induction false} VetPasses(m: Matrix, changes: seq<Cell>, n: nat)
    requires n <= |changes|
    ensures Vet(m, changes, n).Ok? <==> forall i :: 0 <= i < n ==> Settable(m, changes, i)
  {
    if n > 0 {
      VetPasses(m, changes, n - 1);
      VetStep(m, changes, n - 1);
    }
    hide Settable, WellFormed;
  }

  /** The first cell at fault, and its fault. */
  lemma {:induction false} VetFault(m: Matrix, changes: seq<Cell>, n: nat) returns (k: nat)
    requires n <= |changes| && Vet(m, changes, n).Err?
    ensures k < n && !Settable(m, changes, k) && forall i :: 0 <= i < k ==> Settable(m, changes, i)
    ensures Vet(m, changes, n).error == if WellFormed(changes, k) then NotFound else BadRequest
  {
    VetStep(m, changes, n - 1);
    VetPasses(m, changes, n - 1);
    hide Settable, WellFormed;
    if Vet(m, changes, n - 1).Ok? { k := n - 1; } else { k := VetFault(m, changes, n - 1); }
  }

  lemma {:induction false} VetStep(m: Matrix, changes: seq<Cell>, n: nat)
    requires n < |changes|
    ensures Vet(m, changes, n).Err? ==> Vet(m, changes, n + 1) == Vet(m, changes, n)
    ensures Vet(m, changes, n).Ok? ==>
              if Settable(m, changes, n) then Vet(m, changes, n + 1).Ok?
              else Vet(m, changes, n + 1) == Err(if WellFormed(changes, n) then NotFound else BadRequest)
  {
    assert forall j :: 0 <= j < n ==>
             (PairOf(Lowered(changes[j])) == PairOf(Lowered(changes[n])) <==>
              Named(changes[j], Lower(changes[n].account), Lower(changes[n].context)));
    hide Uuid, Lower;
  }

  /** A save is accepted exactly when it is bounded, current, well scoped, and every listed cell can be set. */
  lemma {:induction false} SaveAccepted(m: Matrix, permitted: bool, w: CellWrite, listed: seq<Cell>)
    ensures CellsWritten(m, permitted, w, listed).Ok? <==>
            && Bounded(w) && Current(m, permitted, w.expected)
            && (w.bulk.Some? ==> WellScoped(w.bulk.value) && HasTarget(m, w.bulk.value))
            && |listed| <= 1000 && forall i :: 0 <= i < |listed| ==> Settable(m, listed, i)
  {
    VetPasses(m, listed, |listed|);
    hide Vet, Settable, Uuid, Lower, AllLowered, Saved;
  }

  /** Why it is refused: the first of these that does not hold, and of the listed cells the first at fault. */
  lemma {:induction false} SaveRefused(m: Matrix, permitted: bool, w: CellWrite, listed: seq<Cell>)
    requires CellsWritten(m, permitted, w, listed).Err?
    ensures var e := CellsWritten(m, permitted, w, listed).error;
            if !Bounded(w) then e == BadRequest
            else if !permitted then e == Forbidden
            else if !Current(m, permitted, w.expected) then e == Conflict
            else if w.bulk.Some? && !WellScoped(w.bulk.value) then e == BadRequest
            else if w.bulk.Some? && !HasTarget(m, w.bulk.value) then e == NotFound
            else if |listed| > 1000 then e == TooLarge
            else
              exists k :: 0 <= k < |listed| && !Settable(m, listed, k) && (forall i :: 0 <= i < k ==> Settable(m, listed, i))
                && e == if WellFormed(listed, k) then NotFound else BadRequest
  {
    hide Vet, Settable, WellFormed, Uuid, Lower, AllLowered, Saved;
    if Vet(m, listed, |listed|).Err? { var k := VetFault(m, listed, |listed|); }
  }

  /** The cell listed for a pair, if any. */
  ghost predicate Sets(listed: seq<Cell>, p: Pair, allowed: bool) {
    exists c <- listed :: Named(c, p.account, p.context) && c.allowed == allowed
  }

  /**
   * An accepted save: every listed pair is allowed, by a person, or not, as it
   * says; every other pair and every other account that waits stay; the
   * revision goes up by one. Its answer names the pairs in small letters and,
   * for the undo, what each was.
   */
  lemma {:induction false} SaveTells(m: Matrix, permitted: bool, w: CellWrite, listed: seq<Cell>)
    requires CellsWritten(m, permitted, w, listed).Ok?
    ensures var (t, result) := CellsWritten(m, permitted, w, listed).value;
            && (forall p: Pair :: p in t.cells <==> Sets(listed, p, true) || (p in m.cells && !Sets(listed, p, false)))
            && (forall p <- t.cells :: if Sets(listed, p, true) then t.cells[p] == Person else p in m.cells && t.cells[p] == m.cells[p])
            && (forall id :: id in t.awaiting <==> id in m.awaiting && forall c <- listed :: Lower(c.account) != id)
            && t.rules == m.rules.(revision := m.rules.revision + 1) && t.accounts == m.accounts && t.contexts == m.contexts
            && t.projects == m.projects && t.autoAdd == m.autoAdd
            && result.revision == m.rules.revision + 1 && |result.changes| == |listed| == |result.undo|
            && (forall i :: 0 <= i < |listed| ==>
                  && result.changes[i] == Cell(Lower(listed[i].account), Lower(listed[i].context), listed[i].allowed)
                  && result.undo[i] == Cell(Lower(listed[i].account), Lower(listed[i].context),
                                            Pair(Lower(listed[i].account), Lower(listed[i].context)) in m.cells))
  {
    var (t, result) := CellsWritten(m, permitted, w, listed).value;
    SavedParts(m, permitted, w, listed);
    VettedInverse(m, listed, |listed|);
    assert t == Saved(m, result.changes);
    SavedKeeps(m, result.changes);
    SavedRest(m, result.changes);
    hide CellsWritten, Vet, Uuid, Written, Saved, Lower, Touched;
    LoweredPairs(listed, result.changes);
    forall p: Pair
      ensures p in t.cells <==> Sets(listed, p, true) || (p in m.cells && !Sets(listed, p, false))
      ensures p in t.cells ==> if Sets(listed, p, true) then t.cells[p] == Person else p in m.cells && t.cells[p] == m.cells[p]
    {
      SavedPair(m.cells, listed, result.changes, p);
    }
    forall id ensures id in t.awaiting <==> id in m.awaiting && forall c <- listed :: Lower(c.account) != id {
      TouchedAre(listed, result.changes, id);
    }
  }

  lemma {:induction false} SavedPair(cells: map<Pair, Origin>, listed: seq<Cell>, changes: seq<Cell>, p: Pair)
    requires changes == AllLowered(listed) && DistinctPairs(changes)
    ensures var w := Written(cells, changes, |changes|);
            && (p in w <==> Sets(listed, p, true) || (p in cells && !Sets(listed, p, false)))
            && (p in w ==> if Sets(listed, p, true) then w[p] == Person else p in cells && w[p] == cells[p])
  {
    WrittenAt(cells, changes, |changes|, p);
    hide Written, Lower;
    assert forall i :: 0 <= i < |listed| ==> (PairOf(changes[i]) == p <==> Named(listed[i], p.account, p.context));
    if exists i :: 0 <= i < |changes| && PairOf(changes[i]) == p {
      var i :| 0 <= i < |changes| && PairOf(changes[i]) == p;
      assert listed[i] in listed && changes[i].allowed == listed[i].allowed;
      forall c | c in listed && Named(c, p.account, p.context)
        ensures c.allowed == listed[i].allowed
      {
        var k :| 0 <= k < |listed| && listed[k] == c;
        assert PairOf(changes[k]) == p && k == i;
      }
    }
  }

  lemma {:induction false} TouchedAre(listed: seq<Cell>, changes: seq<Cell>, id: string)
    requires changes == AllLowered(listed)
    ensures id in Touched(changes) <==> exists c <- listed :: Lower(c.account) == id
  {
    hide Lower;
    if id in Touched(changes) {
      var c :| c in changes && c.account == id;
      var i :| 0 <= i < |changes| && changes[i] == c;
      assert listed[i] in listed;
    }
    forall c | c in listed && Lower(c.account) == id
      ensures id in Touched(changes)
    {
      var i :| 0 <= i < |listed| && listed[i] == c;
      assert changes[i] in changes && changes[i].account == id;
    }
  }

  /** What a bulk change stands for: every open account in every open context of its scope, each once, as it says. */
  lemma {:induction false} BulkTells(m: Matrix, b: Bulk, changes: seq<Cell>)
    requires WellScoped(b) && Lists(m, b, changes)
    ensures forall c <- changes :: c.allowed == b.allowed && AccountIsOpen(m, c.account) && ContextIsOpen(m, c.context)
    ensures forall account, context ::
              Cell(account, context, b.allowed) in changes <==>
              AccountIsOpen(m, account) && ContextIsOpen(m, context) && InScope(b, account, context)
    ensures forall i, j :: 0 <= i < j < |changes| ==> changes[i] != changes[j]
  {
    forall account, context
      ensures Cell(account, context, b.allowed) in changes <==>
              AccountIsOpen(m, account) && ContextIsOpen(m, context) && InScope(b, account, context)
    {
      var p := Pair(account, context);
      assert InBulk(m, b, p) <==> AccountIsOpen(m, account) && ContextIsOpen(m, context) && InScope(b, account, context);
      if InBulk(m, b, p) {
        var c :| c in changes && PairOf(c) == p;
        assert c == Cell(account, context, b.allowed);
      }
      hide InBulk, Lower;
    }
    forall i, j | 0 <= i < j < |changes| ensures changes[i] != changes[j] { assert PairOf(changes[i]) != PairOf(changes[j]); }
    hide Lower, Uuid;
  }

  // ------------------------------------------------------------ other writers

  /** One up, and nothing else but what is named. */
  predicate OneUp(m: Matrix, t: Matrix) { t.rules == m.rules.(revision := m.rules.revision + 1) }

  /** A context is created regular, unarchived and at its first revision; those its rule allows are its users. */
  lemma {:induction false} CreationTells(m: Matrix, permitted: bool, w: ContextWrite, nameOk: bool, id: string)
    requires id !in m.contexts && forall p <- m.cells :: p.context != id
    ensures var r := ContextCreated(m, permitted, w, nameOk, id);
            && (r.Ok? <==> nameOk && !w.archived && Current(m, permitted, w.expected))
            && (r.Err? ==> r.error == if !nameOk || w.archived then BadRequest else if permitted then Conflict else Forbidden)
            && (r.Ok? ==>
                  var t := r.value;
                  && OneUp(m, t) && t == m.(rules := t.rules, contexts := t.contexts, cells := t.cells)
                  && t.contexts == m.contexts[id := Context(w.name, Regular, w.deniesNew, false, 1)]
                  && (forall p: Pair :: p in t.cells <==>
                        p in m.cells || (p.context == id && m.rules.values.newContexts == "allow" && AccountIsOpen(m, p.account)))
                  && (forall p <- t.cells :: if p in m.cells then t.cells[p] == m.cells[p] else t.cells[p] == Rule))
  {
    FenceTells(m, permitted, w.expected);
    hide Fence, Current;
  }

  /** An update gives a stored context its new name, rule and archival, one revision later; permanent ones cannot be archived. */
  lemma {:induction false} UpdateTells(m: Matrix, permitted: bool, w: ContextWrite, nameOk: bool, id: string)
    ensures var r := ContextUpdated(m, permitted, w, nameOk, id);
            var x := Lower(id);
            && (r.Ok? <==>
                  && nameOk && Current(m, permitted, w.expected) && Uuid(id) && x in m.contexts
                  && (w.archived ==> m.contexts[x].kind == Regular))
            && (r.Err? ==>
                  r.error == if !nameOk then BadRequest
                             else if !Current(m, permitted, w.expected) then (if permitted then Conflict else Forbidden)
                             else if !Uuid(id) then BadRequest else if x !in m.contexts then NotFound else Guarded)
            && (r.Ok? ==>
                  var c := m.contexts[x];
                  && OneUp(m, r.value) && r.value == m.(rules := r.value.rules, contexts := r.value.contexts)
                  && r.value.contexts == m.contexts[x := Context(w.name, c.kind, w.deniesNew, w.archived, c.revision + 1)])
  {
    FenceTells(m, permitted, w.expected);
    hide Fence, Current, Uuid, Lower;
  }

  /** A live project is put into an unarchived context. */
  lemma {:induction false} ProjectTells(m: Matrix, permitted: bool, expected: int, project: string, known: bool, context: string)
    ensures var r := ProjectSet(m, permitted, expected, project, known, context);
            var there := Lower(context) in m.contexts && !m.contexts[Lower(context)].archived;
            && (r.Ok? <==> Uuid(project) && Uuid(context) && Current(m, permitted, expected) && known && there)
            && (r.Err? ==>
                  r.error == if !Uuid(project) || !Uuid(context) then BadRequest
                             else if !Current(m, permitted, expected) then (if permitted then Conflict else Forbidden) else NotFound)
            && (r.Ok? ==>
                  && OneUp(m, r.value) && r.value == m.(rules := r.value.rules, projects := r.value.projects)
                  && r.value.projects == m.projects[Lower(project) := Lower(context)])
  {
    FenceTells(m, permitted, expected);
    hide Fence, Current, Uuid, Lower;
  }

  /** A value a rule can take. */
  predicate Choice(named: Option<string>, a: string, b: string, c: string) {
    named.Some? ==> named.value == a || named.value == b || named.value == c
  }

  /** A patch that names a rule, and only values its rules can take, is stored over the others; Auto-update follows the model rule. */
  lemma {:induction false} RulesTell(m: Matrix, permitted: bool, expected: int, patch: RulePatch)
    ensures var r := RulesWritten(m, permitted, expected, patch);
            var named := patch.newAccounts.Some? || patch.newContexts.Some? || patch.newProjects.Some? || patch.newModels.Some?;
            var sound := Choice(patch.newAccounts, "allow", "ask", "ask") && Choice(patch.newContexts, "allow", "ask", "ask")
                         && Choice(patch.newProjects, "default", "holding", "holding")
                         && Choice(patch.newModels, "allow", "shipped_only", "deny");
            && (r.Ok? <==> named && sound && Current(m, permitted, expected))
            && (r.Err? ==> r.error == if !named || !sound then BadRequest else if permitted then Conflict else Forbidden)
            && (r.Ok? ==>
                  var v, t := m.rules.values, r.value;
                  && t == m.(rules := t.rules, autoAdd := t.autoAdd) && (t.autoAdd <==> t.rules.values.newModels == "allow")
                  && t.rules == Rules(t.rules.values, m.rules.revision + 1, m.rules.confirmationRequired)
                  && t.rules.values.newAccounts == patch.newAccounts.GetOr(v.newAccounts)
                  && t.rules.values.newContexts == patch.newContexts.GetOr(v.newContexts)
                  && t.rules.values.newProjects == patch.newProjects.GetOr(v.newProjects)
                  && t.rules.values.newModels == patch.newModels.GetOr(v.newModels))
  {
    FenceTells(m, permitted, expected);
    hide Fence, Current;
  }

  /** A person confirms once what is asked to be confirmed. */
  lemma {:induction false} ConfirmationTells(m: Matrix, permitted: bool, expected: int)
    ensures var r := Confirmed(m, permitted, expected);
            && (r.Ok? <==> Current(m, permitted, expected))
            && (r.Ok? ==> r.value == if m.rules.confirmationRequired
                                     then m.(rules := Rules(m.rules.values, m.rules.revision + 1, false)) else m)
  {
    FenceTells(m, permitted, expected);
    hide Fence, Current;
  }

  /** A new account is open; by rule it uses every open context that does not deny new ones, or waits for a person. */
  lemma {:induction false} EnrolmentTells(m: Matrix, id: string)
    requires forall p <- m.cells :: p.account != id
    ensures var t := Enrolled(m, id);
            && t == m.(accounts := m.accounts[id := false], cells := t.cells, awaiting := t.awaiting)
            && (forall p: Pair :: p in t.cells <==>
                  || p in m.cells
                  || (p.account == id && m.rules.values.newAccounts == "allow"
                      && ContextIsOpen(m, p.context) && !m.contexts[p.context].deniesNew))
            && (forall p <- t.cells :: if p in m.cells then t.cells[p] == m.cells[p] else t.cells[p] == Rule)
            && t.awaiting == if m.rules.values.newAccounts == "ask" then m.awaiting + {id} else m.awaiting
  {}
}
