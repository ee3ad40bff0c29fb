/**
 * The paired daemon's runtime refresh (cmd/aeon-agentd/paired_serve.go): one
 * poll tick compares the held configuration with the one on disk, refuses
 * identity and binding changes, and lets validated pins through. What the
 * machine answers on a tick (pin checks, the supervisor, receipts) is an input.
 */
module PairedRuntime {
  import opened Wrappers

  datatype Pin = Pin(path: string, version: string)

  datatype Account = Account(
    harness: string, key: string, id: string, home: string, identity: string, path: string, grok: string,
    piNode: Pin, node: Pin)

  datatype Attach = Attach(installRoot: string, exact: bool, owner: int, digest: string)

  datatype Config = Config(
    localAuthKey: string, attach: map<string, Attach>, schema: string, origin: string, tenant: string, principal: string,
    daemon: string, computer: string, workspace: string, accounts: seq<Account>,
    nodePath: string, sdkPath: string, repinId: string)

  datatype Restart = Restarted | Draining | Failed

  /** What the machine answers during one tick. */
  datatype Machine = Machine(
    pinOk: (Account, string) -> bool,                 // no block for the account alone
    attachOk: (Attach, Account, string) -> bool,      // derived from, or adding nothing to, the account's path
    claudeOk: Config -> bool,                         // Claude's shared dependencies
    adaptersOk: bool, claudeAdapter: bool,
    pinHealth: bool, restart: Restart, refreshOk: bool, receiptOk: bool)

  const CLAUDE := "claude"
  const GROK := "grok"
  const NO_PIN: Pin := Pin("", "")

  function PinFree(a: Account): Account { a.(node := NO_PIN, piNode := NO_PIN) }

  // -------------------------------------------------------------- the checks

  predicate SameIdentity(c: Config, d: Config) {
    && d.origin == c.origin && d.tenant == c.tenant && d.principal == c.principal && d.daemon == c.daemon
    && d.workspace == c.workspace && d.computer == c.computer
  }

  predicate AttachAllowed(c: Config, next: Config, env: Machine, harness: string)
    requires harness in next.attach
  {
    || (harness in c.attach && c.attach[harness] == next.attach[harness])
    || (exists i :: 0 <= i < |next.accounts| && next.accounts[i].harness == harness
          && env.attachOk(next.attach[harness], next.accounts[i], next.workspace))
  }

  predicate ValidAttach(c: Config, next: Config, env: Machine) {
    forall h <- next.attach :: AttachAllowed(c, next, env, h)
  }

  predicate BindingChanged(c: Config, next: Config) {
    exists i, j :: 0 <= i < |next.accounts| && 0 <= j < |c.accounts|
      && c.accounts[j].id == next.accounts[i].id && PinFree(c.accounts[j]) != PinFree(next.accounts[i])
  }

  /** `acceptedAccountPin`: nothing new, or new interpreter pins that pass on their own; never Claude's or Grok's. */
  predicate AcceptedPin(prior: Account, next: Account, workspace: string, env: Machine) {
    && next.harness != CLAUDE && next.harness != GROK && prior.harness != CLAUDE && prior.harness != GROK
    && PinFree(prior) == PinFree(next)
    && ((prior.node == next.node && prior.piNode == next.piNode) || env.pinOk(next, workspace))
  }

  /** A repin leaves every binding at its place, but for accepted pins and Claude's shared ones. */
  predicate PreservesOthers(c: Config, next: Config, env: Machine) {
    && ValidAttach(c, next, env)
    && |c.accounts| == |next.accounts|
    && (forall i :: 0 <= i < |c.accounts| ==>
          next.accounts[i] == c.accounts[i] || AcceptedPin(c.accounts[i], next.accounts[i], next.workspace, env))
    && next.(attach := c.attach, accounts := c.accounts, nodePath := c.nodePath, sdkPath := c.sdkPath, repinId := c.repinId) == c
  }

  /** One account after every matching candidate in turn. */
  function Adopted(a: Account, candidates: seq<Account>, n: nat, workspace: string, env: Machine): Account
    requires n <= |candidates|
  {
    if n == 0 then a
    else
      var before := Adopted(a, candidates, n - 1, workspace, env);
      var c := candidates[n - 1];
      if c.id == before.id && AcceptedPin(before, c, workspace, env) then before.(node := c.node, piNode := c.piNode) else before
  }

  function AdoptedFrom(a: Account, next: Config, env: Machine): Account {
    Adopted(a, next.accounts, |next.accounts|, next.workspace, env)
  }

  function AdoptedPins(c: Config, next: Config, env: Machine): Config {
    c.(accounts := seq(|c.accounts|, i requires 0 <= i < |c.accounts| =>
                         AdoptedFrom(c.accounts[i], next, env)))
  }

  // ---------------------------------------------------------------- one tick

  datatype Status =
    | IdentityChanged | AttachRejected | BindingStopped | AdaptersFailed   // no poll; a binding change stops the daemon
    | ClaudeHeld | Drained | RefreshFailed | Polling

  datatype Tick = Tick(config: Config, status: Status, restarted: bool)

  /** The restart is asked of the supervisor only for a repin that preserves the other bindings. */
  predicate MayRestart(c: Config, next: Config, env: Machine) {
    next.repinId != "" && PreservesOthers(c, next, env) && env.claudeAdapter
  }

  predicate NeedsRefresh(c: Config, next: Config, env: Machine) { c != next || !env.pinHealth }

  function Refreshed(c: Config, next: Config, env: Machine): Tick {
    if !SameIdentity(c, next) then Tick(c, IdentityChanged, false)
    else if !ValidAttach(c, next, env) then Tick(c, AttachRejected, false)
    else if BindingChanged(c, next) then Tick(c, BindingStopped, false)
    else if !env.adaptersOk then Tick(c, AdaptersFailed, false)
    else if !NeedsRefresh(c, next, env) then Settled(c, env, false)
    else if next.repinId == c.repinId then
      (if env.refreshOk then Settled(next, env, false) else Tick(c, RefreshFailed, false))
    else if !env.claudeOk(next) then Tick(c, ClaudeHeld, false)
    else if !MayRestart(c, next, env) || env.restart.Failed? then Tick(c, ClaudeHeld, false)
    else if env.restart.Draining? then
      (if env.refreshOk then Tick(AdoptedPins(c, next, env), Drained, false) else Tick(c, RefreshFailed, false))
    else if env.refreshOk then Settled(next, env, true)
    else Tick(c, RefreshFailed, true)
  }

  /** After a refresh: Claude is held for bad dependencies or a missing receipt; everything polls. */
  function Settled(c: Config, env: Machine, restarted: bool): Tick {
    Tick(c, if env.claudeOk(c) && env.receiptOk then Polling else ClaudeHeld, restarted)
  }

  // ------------------------------------------------------------ the code's loops

  /** `nonPinBindingChanged`. */
  method FindBindingChange(c: Config, next: Config) returns (changed: bool)
    ensures changed <==> BindingChanged(c, next)
  {
    for i := 0 to |next.accounts|
      invariant forall k, j :: 0 <= k < i && 0 <= j < |c.accounts| ==>
                  !(c.accounts[j].id == next.accounts[k].id && PinFree(c.accounts[j]) != PinFree(next.accounts[k]))
    {
      for n := 0 to |c.accounts|
        invariant forall j :: 0 <= j < n ==>
                    !(c.accounts[j].id == next.accounts[i].id && PinFree(c.accounts[j]) != PinFree(next.accounts[i]))
      {
        if c.accounts[n].id == next.accounts[i].id && PinFree(c.accounts[n]) != PinFree(next.accounts[i]) { return true; }
      }
    }
    changed := false;
  }

  /** `validAttachIdentityRefresh`. */
  method CheckAttach(c: Config, next: Config, env: Machine) returns (ok: bool)
    ensures ok <==> ValidAttach(c, next, env)
  {
    var left := next.attach.Keys;
    while left != {}
      invariant left <= next.attach.Keys
      invariant forall h :: h in next.attach && h !in left ==> AttachAllowed(c, next, env, h)
      decreases left
    {
      var harness :| harness in left;
      left := left - {harness};
      var identity := next.attach[harness];
      if harness in c.attach && c.attach[harness] == identity { continue; }
      var valid := false;
      for i := 0 to |next.accounts|
        invariant valid <==> exists k :: 0 <= k < i && next.accounts[k].harness == harness
                               && env.attachOk(identity, next.accounts[k], next.workspace)
      {
        if next.accounts[i].harness != harness { continue; }
        valid := valid || env.attachOk(identity, next.accounts[i], next.workspace);
      }
      if !valid { return false; }
    }
    ok := true;
  }

  /** The first account not yet matched with this id. */
  method FirstUnused(accounts: seq<Account>, used: set<nat>, id: string) returns (found: Option<nat>)
    ensures found.None? ==> forall j :: 0 <= j < |accounts| ==> j in used || accounts[j].id != id
    ensures found.Some? ==>
              && found.value < |accounts| && found.value !in used && accounts[found.value].id == id
              && forall j :: 0 <= j < found.value ==> j in used || accounts[j].id != id
  {
    for j := 0 to |accounts|
      invariant forall k :: 0 <= k < j ==> k in used || accounts[k].id != id
    {
      if j !in used && accounts[j].id == id { return Some(j); }
    }
    found := None;
  }

  /**
   * `claudeRepinPreservesOtherBindings`: matches accounts by id through a map
   * of used positions, rolls accepted pins back, and compares everything.
   * That is a comparison position by position.
   */
  method CheckRepin(c: Config, next: Config, env: Machine) returns (ok: bool)
    ensures ok <==> PreservesOthers(c, next, env)
  {
    hide ValidAttach, AcceptedPin;
    var attach := CheckAttach(c, next, env);
    if !attach { return false; }
    var rolled := next.(attach := c.attach, nodePath := c.nodePath, sdkPath := c.sdkPath, repinId := c.repinId);
    if |rolled.accounts| != |c.accounts| { return false; }
    var used: set<nat> := {};
    ghost var inPlace := true;
    for i := 0 to |next.accounts|
      invariant |rolled.accounts| == |next.accounts| && rolled == next.(attach := c.attach, nodePath := c.nodePath,
                  sdkPath := c.sdkPath, repinId := c.repinId, accounts := rolled.accounts)
      invariant forall k :: i <= k < |next.accounts| ==> rolled.accounts[k] == next.accounts[k]
      invariant forall k :: 0 <= k < i ==> rolled.accounts[k].id == next.accounts[k].id
      invariant inPlace <==> forall k :: 0 <= k < i ==> next.accounts[k].id == c.accounts[k].id
      invariant inPlace ==> forall k: nat :: k in used <==> k < i
      invariant inPlace ==> forall k :: 0 <= k < i ==>
                  rolled.accounts[k] == Rolled(c.accounts[k], next.accounts[k], next.workspace, env)
    {
      var m := FirstUnused(c.accounts, used, rolled.accounts[i].id);
      if m.None? {
        assert PreservesOthers(c, next, env) ==> next.accounts[i].id == c.accounts[i].id by { SamePlace(c, next, env, i); }
        assert PreservesOthers(c, next, env) ==> inPlace by { SamePlaces(c, next, env); }
        return false;
      }
      used := used + {m.value};
      inPlace := inPlace && next.accounts[i].id == c.accounts[i].id;
      assert inPlace ==> m.value == i;
      if AcceptedPin(c.accounts[m.value], rolled.accounts[i], next.workspace, env) {
        rolled := rolled.(accounts := rolled.accounts[i := rolled.accounts[i].(node := c.accounts[m.value].node,
                                                                              piNode := c.accounts[m.value].piNode)]);
      }
    }
    ok := c == rolled;
    RolledIsPreserved(c, next, env, rolled, inPlace);
  }

  /** A next account with an accepted pin rolled back. */
  function Rolled(prior: Account, next: Account, workspace: string, env: Machine): Account {
    if AcceptedPin(prior, next, workspace, env) then next.(node := prior.node, piNode := prior.piNode) else next
  }

  lemma {:induction false} SamePlace(c: Config, next: Config, env: Machine, i: nat)
    requires i < |next.accounts|
    ensures PreservesOthers(c, next, env) ==> next.accounts[i].id == c.accounts[i].id
  {
    if PreservesOthers(c, next, env) {
      assert next.accounts[i] == c.accounts[i] || PinFree(c.accounts[i]) == PinFree(next.accounts[i]);
      assert PinFree(c.accounts[i]).id == c.accounts[i].id && PinFree(next.accounts[i]).id == next.accounts[i].id;
    }
    hide ValidAttach;
  }

  lemma {:induction false} SamePlaces(c: Config, next: Config, env: Machine)
    ensures PreservesOthers(c, next, env) ==>
              |c.accounts| == |next.accounts| && forall i :: 0 <= i < |next.accounts| ==> next.accounts[i].id == c.accounts[i].id
  {
    if PreservesOthers(c, next, env) {
      forall i | 0 <= i < |next.accounts| ensures next.accounts[i].id == c.accounts[i].id { SamePlace(c, next, env, i); }
    }
    hide PreservesOthers;
  }

  lemma {:induction false} RolledBack(prior: Account, next: Account, workspace: string, env: Machine)
    ensures Rolled(prior, next, workspace, env) == prior <==> next == prior || AcceptedPin(prior, next, workspace, env)
  {
    if AcceptedPin(prior, next, workspace, env) {
      var rolled := Rolled(prior, next, workspace, env);
      assert PinFree(rolled) == PinFree(next) == PinFree(prior);
      assert rolled == PinFree(rolled).(node := prior.node, piNode := prior.piNode);
      assert prior == PinFree(prior).(node := prior.node, piNode := prior.piNode);
    }
  }

  lemma {:induction false} RolledIsPreserved(c: Config, next: Config, env: Machine, rolled: Config, inPlace: bool)
    requires ValidAttach(c, next, env) && |next.accounts| == |c.accounts| == |rolled.accounts|
    requires rolled == next.(attach := c.attach, nodePath := c.nodePath, sdkPath := c.sdkPath, repinId := c.repinId,
                             accounts := rolled.accounts)
    requires forall k :: 0 <= k < |next.accounts| ==> rolled.accounts[k].id == next.accounts[k].id
    requires inPlace <==> forall k :: 0 <= k < |next.accounts| ==> next.accounts[k].id == c.accounts[k].id
    requires inPlace ==> forall k :: 0 <= k < |next.accounts| ==>
               rolled.accounts[k] == Rolled(c.accounts[k], next.accounts[k], next.workspace, env)
    ensures c == rolled <==> PreservesOthers(c, next, env)
  {
    SamePlaces(c, next, env);
    if inPlace {
      forall k | 0 <= k < |next.accounts|
        ensures rolled.accounts[k] == c.accounts[k] <==>
                next.accounts[k] == c.accounts[k] || AcceptedPin(c.accounts[k], next.accounts[k], next.workspace, env)
      {
        RolledBack(c.accounts[k], next.accounts[k], next.workspace, env);
      }
      assert rolled.accounts == c.accounts <==> forall k :: 0 <= k < |next.accounts| ==> rolled.accounts[k] == c.accounts[k];
      assert c == rolled <==>
             rolled.accounts == c.accounts
             && next.(attach := c.attach, accounts := c.accounts, nodePath := c.nodePath, sdkPath := c.sdkPath, repinId := c.repinId) == c;
    } else {
      assert c == rolled ==> rolled.accounts == c.accounts;
    }
    hide ValidAttach, AcceptedPin, Rolled;
  }

  /** `adoptAcceptedPins`. */
  method AdoptPins(c: Config, next: Config, env: Machine) returns (out: Config)
    ensures out == AdoptedPins(c, next, env)
  {
    hide AcceptedPin;
    var accounts := c.accounts;
    for i := 0 to |accounts|
      invariant |accounts| == |c.accounts|
      invariant forall k :: 0 <= k < |accounts| ==>
                  accounts[k] == if k < i then AdoptedFrom(c.accounts[k], next, env) else c.accounts[k]
    {
      for n := 0 to |next.accounts|
        invariant |accounts| == |c.accounts|
        invariant accounts[i] == Adopted(c.accounts[i], next.accounts, n, next.workspace, env)
        invariant forall k :: 0 <= k < |accounts| && k != i ==>
                    accounts[k] == if k < i then AdoptedFrom(c.accounts[k], next, env) else c.accounts[k]
      {
        var candidate := next.accounts[n];
        if candidate.id == accounts[i].id && AcceptedPin(accounts[i], candidate, next.workspace, env) {
          accounts := accounts[i := accounts[i].(node := candidate.node, piNode := candidate.piNode)];
        }
      }
    }
    out := c.(accounts := accounts);
    assert accounts == AdoptedPins(c, next, env).accounts;
  }

  /** The daemon's held configuration, stepped by poll ticks. */
  class Daemon {
    var held: Config
    var restarts: nat

    constructor (c: Config)
      ensures held == c && restarts == 0
    {
      held, restarts := c, 0;
    }

    /** `refreshPairedRuntime`. */
    method Refresh(next: Config, env: Machine) returns (status: Status)
      modifies this
      ensures var tick := Refreshed(old(held), next, env);
              held == tick.config && status == tick.status && restarts == old(restarts) + if tick.restarted then 1 else 0
    {
      hide ValidAttach, BindingChanged, PreservesOthers, Adopted, AdoptedPins;
      if !SameIdentity(held, next) { return IdentityChanged; }
      var attach := CheckAttach(held, next, env);
      if !attach { return AttachRejected; }
      var changed := FindBindingChange(held, next);
      if changed { return BindingStopped; }
      if !env.adaptersOk { return AdaptersFailed; }
      if held != next || !env.pinHealth {
        if next.repinId != held.repinId {
          if !env.claudeOk(next) { return ClaudeHeld; }
          var preserved := CheckRepin(held, next, env);
          if next.repinId == "" || !preserved || !env.claudeAdapter { return ClaudeHeld; }
          if env.restart.Draining? {
            if !env.refreshOk { return RefreshFailed; }
            held := AdoptPins(held, next, env);
            return Drained;
          }
          if env.restart.Failed? { return ClaudeHeld; }
          restarts := restarts + 1;
        }
        if !env.refreshOk { return RefreshFailed; }
        held := next;
      }
      if !env.claudeOk(held) || !env.receiptOk { return ClaudeHeld; }
      status := Polling;
    }
  }
}
