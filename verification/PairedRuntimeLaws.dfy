/** What every run of refresh ticks keeps. */
module PairedRuntimeLaws {
  import opened Wrappers
  import opened PairedRuntime

  datatype Poll = Poll(next: Config, env: Machine)

  /** A run of ticks; a binding change stops the daemon. */
  ghost predicate Run(c: Config, polls: seq<Poll>, d: Config)
    decreases |polls|
  {
    if polls == [] then c == d
    else
      var tick := Refreshed(c, polls[0].next, polls[0].env);
      if tick.status.BindingStopped? then tick.config == d && |polls| == 1 else Run(tick.config, polls[1..], d)
  }

  /** Accounts with this id have the same binding, pins aside. */
  ghost predicate SameBinding(c: Config, d: Config, id: string) {
    forall a <- c.accounts, b <- d.accounts :: a.id == id && b.id == id ==> PinFree(a) == PinFree(b)
  }

  predicate Enrolled(c: Config, id: string) { exists i :: 0 <= i < |c.accounts| && c.accounts[i].id == id }

  // ------------------------------------------------------------ adopted pins

  /** Adopting changes only interpreter pins, to ones that pass on their own, and never Claude's or Grok's. */
  lemma {:induction false} AdoptedIsValidated(a: Account, candidates: seq<Account>, n: nat, workspace: string, env: Machine)
    requires n <= |candidates|
    ensures var b := Adopted(a, candidates, n, workspace, env);
            && PinFree(b) == PinFree(a)
            && (b == a || (a.harness != CLAUDE && a.harness != GROK
                           && exists k :: 0 <= k < n && candidates[k] == b && env.pinOk(b, workspace)))
  {
    if n > 0 {
      AdoptedIsValidated(a, candidates, n - 1, workspace, env);
      var before := Adopted(a, candidates, n - 1, workspace, env);
      var c := candidates[n - 1];
      if c.id == before.id && AcceptedPin(before, c, workspace, env) {
        assert PinFree(before) == PinFree(c);
        assert before.(node := c.node, piNode := c.piNode) == PinFree(before).(node := c.node, piNode := c.piNode);
        assert c == PinFree(c).(node := c.node, piNode := c.piNode);
        assert candidates[n - 1] == Adopted(a, candidates, n, workspace, env);
      }
    }
  }

  /**
   * A repin accepted while Claude drains changes nothing but interpreter pins
   * of other accounts, each one offered and valid on its own. Claude's shared
   * pins and the repin id wait.
   */
  lemma {:induction false} DrainingAdoptsOnlyValidPins(c: Config, next: Config, env: Machine)
    requires Refreshed(c, next, env).status.Drained?
    ensures var d := Refreshed(c, next, env).config;
            && d == c.(accounts := d.accounts) && |d.accounts| == |c.accounts|
            && next.repinId != c.repinId && PreservesOthers(c, next, env)
            && forall i :: 0 <= i < |c.accounts| ==>
                 && PinFree(d.accounts[i]) == PinFree(c.accounts[i])
                 && (d.accounts[i] == c.accounts[i]
                     || (c.accounts[i].harness != CLAUDE && c.accounts[i].harness != GROK
                         && d.accounts[i] in next.accounts && env.pinOk(d.accounts[i], next.workspace)))
  {
    DrainedParts(c, next, env);
    var d := Refreshed(c, next, env).config;
    forall i | 0 <= i < |c.accounts|
      ensures PinFree(d.accounts[i]) == PinFree(c.accounts[i])
      ensures d.accounts[i] == c.accounts[i]
              || (c.accounts[i].harness != CLAUDE && c.accounts[i].harness != GROK
                  && d.accounts[i] in next.accounts && env.pinOk(d.accounts[i], next.workspace))
    {
      AdoptedIsValidated(c.accounts[i], next.accounts, |next.accounts|, next.workspace, env);
      hide Refreshed, PinFree;
    }
    hide Refreshed, PinFree;
  }

  lemma {:induction false} DrainedParts(c: Config, next: Config, env: Machine)
    requires Refreshed(c, next, env).status.Drained?
    ensures Refreshed(c, next, env).config == AdoptedPins(c, next, env)
    ensures next.repinId != c.repinId && PreservesOthers(c, next, env)
  {
    hide ValidAttach, BindingChanged, PreservesOthers, AdoptedPins;
  }

  predicate DistinctIds(accounts: seq<Account>) {
    forall i, j :: 0 <= i < j < |accounts| ==> accounts[i].id != accounts[j].id
  }

  /** The one candidate with the account's id, if accepted, is taken. */
  lemma {:induction false} AdoptedTakes(a: Account, candidates: seq<Account>, n: nat, workspace: string, env: Machine, k: nat)
    requires k < |candidates| && n <= |candidates| && DistinctIds(candidates) && candidates[k].id == a.id
    requires candidates[k] == a || AcceptedPin(a, candidates[k], workspace, env)
    ensures Adopted(a, candidates, n, workspace, env) == if n <= k then a else candidates[k]
  {
    if n > 0 {
      AdoptedTakes(a, candidates, n - 1, workspace, env, k);
      var c := candidates[n - 1];
      if n - 1 == k {
        if AcceptedPin(a, c, workspace, env) {
          assert a.(node := c.node, piNode := c.piNode) == PinFree(a).(node := c.node, piNode := c.piNode);
          assert c == PinFree(c).(node := c.node, piNode := c.piNode);
        }
      } else {
        assert c.id != candidates[k].id;
      }
    }
  }

  /** While Claude drains, every pin the repin offers to another account is taken: all accounts are the next ones. */
  lemma {:induction false} DrainingTakesOfferedPins(c: Config, next: Config, env: Machine)
    requires Refreshed(c, next, env).status.Drained? && DistinctIds(c.accounts)
    ensures Refreshed(c, next, env).config == c.(accounts := next.accounts)
  {
    DrainedParts(c, next, env);
    SamePlaces(c, next, env);
    var d := Refreshed(c, next, env).config;
    hide Refreshed;
    forall i | 0 <= i < |c.accounts|
      ensures d.accounts[i] == next.accounts[i]
    {
      AdoptedTakes(c.accounts[i], next.accounts, |next.accounts|, next.workspace, env, i);
      hide Adopted, AcceptedPin, ValidAttach;
    }
    hide Adopted, AcceptedPin, ValidAttach;
    assert d.accounts == next.accounts;
  }

  // ---------------------------------------------------- what a tick decides

  /** The two configurations are of one pairing. */
  predicate OnePairing(c: Config, next: Config) {
    && c.origin == next.origin && c.tenant == next.tenant && c.principal == next.principal
    && c.daemon == next.daemon && c.workspace == next.workspace && c.computer == next.computer
  }

  /** Every attach identity is as held, or derived from an account of its harness. */
  ghost predicate AttachesHold(c: Config, next: Config, env: Machine) {
    forall h <- next.attach ::
      (h in c.attach && c.attach[h] == next.attach[h])
      || exists a <- next.accounts :: a.harness == h && env.attachOk(next.attach[h], a, next.workspace)
  }

  /** The accounts differ in interpreter pins at most. */
  predicate SameButPins(a: Account, b: Account) {
    && a.harness == b.harness && a.key == b.key && a.id == b.id && a.home == b.home && a.identity == b.identity
    && a.path == b.path && a.grok == b.grok
  }

  ghost predicate BindingsHold(c: Config, next: Config) {
    forall a <- c.accounts, b <- next.accounts :: a.id == b.id ==> SameButPins(a, b)
  }

  /** A repin may change Claude's shared pins, derived attach identities, and valid pins of other harnesses' accounts. */
  ghost predicate OnlyRepins(c: Config, next: Config, env: Machine) {
    && OnePairing(c, next) && AttachesHold(c, next, env)
    && c.localAuthKey == next.localAuthKey && c.schema == next.schema && |c.accounts| == |next.accounts|
    && forall i :: 0 <= i < |c.accounts| && next.accounts[i] != c.accounts[i] ==>
         && SameButPins(c.accounts[i], next.accounts[i]) && env.pinOk(next.accounts[i], next.workspace)
         && c.accounts[i].harness != "claude" && c.accounts[i].harness != "grok"
  }

  lemma {:induction false} PinsAside(a: Account, b: Account)
    ensures PinFree(a) == PinFree(b) <==> SameButPins(a, b)
    ensures SameButPins(a, b) && a.node == b.node && a.piNode == b.piNode ==> a == b
  {}

  lemma {:induction false} AttachesAreValid(c: Config, next: Config, env: Machine)
    ensures ValidAttach(c, next, env) <==> AttachesHold(c, next, env)
  {
    forall h | h in next.attach
      ensures AttachAllowed(c, next, env, h) <==>
              (h in c.attach && c.attach[h] == next.attach[h])
              || exists a <- next.accounts :: a.harness == h && env.attachOk(next.attach[h], a, next.workspace)
    {
      forall a | a in next.accounts && a.harness == h && env.attachOk(next.attach[h], a, next.workspace)
        ensures AttachAllowed(c, next, env, h)
      {
        var i :| 0 <= i < |next.accounts| && next.accounts[i] == a;
      }
    }
    hide AttachAllowed;
  }

  lemma {:induction false} BindingsAreKept(c: Config, next: Config)
    ensures !BindingChanged(c, next) <==> BindingsHold(c, next)
  {
    forall a: Account, b: Account ensures PinFree(a) == PinFree(b) <==> SameButPins(a, b) { PinsAside(a, b); }
    hide PinFree, SameButPins;
    if !BindingChanged(c, next) {
      forall a, b | a in c.accounts && b in next.accounts && a.id == b.id
        ensures SameButPins(a, b)
      {
        var j :| 0 <= j < |c.accounts| && c.accounts[j] == a;
        var i :| 0 <= i < |next.accounts| && next.accounts[i] == b;
        assert c.accounts[j].id == next.accounts[i].id;
      }
    }
  }

  lemma {:induction false} AcceptedIsValidPin(a: Account, b: Account, workspace: string, env: Machine)
    ensures b == a || AcceptedPin(a, b, workspace, env) <==>
            b == a || (SameButPins(a, b) && env.pinOk(b, workspace) && a.harness != "claude" && a.harness != "grok")
  {
    PinsAside(a, b);
    hide PinFree;
  }

  lemma {:induction false} OnlyRepinsArePreserved(c: Config, next: Config, env: Machine)
    ensures PreservesOthers(c, next, env) <==> OnlyRepins(c, next, env)
  {
    AttachesAreValid(c, next, env);
    forall a: Account, b: Account
      ensures b == a || AcceptedPin(a, b, next.workspace, env) <==>
              b == a || (SameButPins(a, b) && env.pinOk(b, next.workspace) && a.harness != "claude" && a.harness != "grok")
    {
      AcceptedIsValidPin(a, b, next.workspace, env);
    }
    var back := next.(attach := c.attach, accounts := c.accounts, nodePath := c.nodePath, sdkPath := c.sdkPath, repinId := c.repinId);
    assert back == c <==> OnePairing(c, next) && c.localAuthKey == next.localAuthKey && c.schema == next.schema;
    hide ValidAttach, AttachesHold, AcceptedPin, SameButPins, OnePairing;
  }

  /** Nothing stands in the way of the next configuration but a repin. */
  ghost predicate Acceptable(c: Config, next: Config, env: Machine) {
    OnePairing(c, next) && AttachesHold(c, next, env) && BindingsHold(c, next) && env.adaptersOk
  }

  /** The repin may be asked of the supervisor, and it did not fail it. */
  ghost predicate Repins(c: Config, next: Config, env: Machine) {
    next.repinId != "" && OnlyRepins(c, next, env) && env.claudeAdapter && env.claudeOk(next) && env.restart != Failed
  }

  /**
   * What a tick decides. A refused configuration leaves the held one and says
   * why, in this order; a news-free tick keeps it too. News under the held repin
   * id is taken over. A new repin id needs an allowed repin, and is taken over
   * with a restart unless Claude drains. Claude polls on sound dependencies and
   * a receipt.
   */
  lemma {:induction false} TickTells(c: Config, next: Config, env: Machine)
    ensures var t := Refreshed(c, next, env);
            var news, repin := c != next || !env.pinHealth, c.repinId != next.repinId;
            var polls := (d: Config) => if env.claudeOk(d) && env.receiptOk then Polling else ClaudeHeld;
            && (!OnePairing(c, next) ==> t == Tick(c, IdentityChanged, false))
            && (OnePairing(c, next) && !AttachesHold(c, next, env) ==> t == Tick(c, AttachRejected, false))
            && (OnePairing(c, next) && AttachesHold(c, next, env) && !BindingsHold(c, next) ==> t == Tick(c, BindingStopped, false))
            && (OnePairing(c, next) && AttachesHold(c, next, env) && BindingsHold(c, next) && !env.adaptersOk ==>
                  t == Tick(c, AdaptersFailed, false))
            && (Acceptable(c, next, env) && !news ==> t == Tick(c, polls(c), false))
            && (Acceptable(c, next, env) && news && repin && !Repins(c, next, env) ==> t == Tick(c, ClaudeHeld, false))
            && (Acceptable(c, next, env) && news && (repin ==> Repins(c, next, env)) ==>
                  && (t.restarted <==> repin && env.restart == Restarted)
                  && (!env.refreshOk ==> t.config == c && t.status == RefreshFailed)
                  && (env.refreshOk && repin && env.restart == Draining ==> t.status == Drained && t.config == c.(accounts := t.config.accounts))
                  && (env.refreshOk && !(repin && env.restart == Draining) ==> t.config == next && t.status == polls(next)))
  {
    AttachesAreValid(c, next, env);
    BindingsAreKept(c, next);
    OnlyRepinsArePreserved(c, next, env);
    hide ValidAttach, AttachesHold, BindingChanged, BindingsHold, PreservesOthers, OnlyRepins, Adopted;
  }

  // --------------------------------------------------------------- every tick

  /** The held configuration stays, adopts pins, or becomes the next one, whose identity and bindings are the same. */
  lemma {:induction false} TickOutcome(c: Config, next: Config, env: Machine)
    ensures var d := Refreshed(c, next, env).config;
            || d == c
            || (Refreshed(c, next, env).status.Drained? && d == AdoptedPins(c, next, env))
            || (d == next && SameIdentity(c, next) && !BindingChanged(c, next))
  {
    hide ValidAttach, BindingChanged, PreservesOthers, AdoptedPins, SameIdentity;
  }

  lemma {:induction false} TickKeepsIdentity(c: Config, next: Config, env: Machine)
    ensures SameIdentity(c, Refreshed(c, next, env).config)
  {
    TickOutcome(c, next, env);
    hide Refreshed, BindingChanged, Adopted;
  }

  /** A binding of the held configuration is the same after the tick. */
  lemma {:induction false} TickKeepsBindings(c: Config, next: Config, env: Machine, id: string)
    requires SameBinding(c, c, id)
    ensures SameBinding(c, Refreshed(c, next, env).config, id)
  {
    TickOutcome(c, next, env);
    var d := Refreshed(c, next, env).config;
    if Refreshed(c, next, env).status.Drained? {
      DrainingAdoptsOnlyValidPins(c, next, env);
      forall a, b | a in c.accounts && b in d.accounts && a.id == id && b.id == id
        ensures PinFree(a) == PinFree(b)
      {
        var i :| 0 <= i < |d.accounts| && d.accounts[i] == b;
        assert PinFree(b) == PinFree(c.accounts[i]) && PinFree(b).id == b.id && PinFree(c.accounts[i]).id == c.accounts[i].id;
        assert c.accounts[i] in c.accounts;
        hide Refreshed;
      }
    }
    hide Refreshed, Adopted;
  }

  lemma {:induction false} BindingsChain(c: Config, d: Config, e: Config, id: string)
    requires SameBinding(c, d, id) && SameBinding(d, e, id) && Enrolled(d, id)
    ensures SameBinding(c, e, id)
  {
    var i :| 0 <= i < |d.accounts| && d.accounts[i].id == id;
    assert d.accounts[i] in d.accounts;
    hide PinFree;
  }

  lemma {:induction false} BindingsAgree(c: Config, d: Config, id: string)
    requires SameBinding(c, d, id) && Enrolled(c, id)
    ensures SameBinding(d, d, id)
  {
    var i :| 0 <= i < |c.accounts| && c.accounts[i].id == id;
    assert c.accounts[i] in c.accounts;
    hide PinFree;
  }

  // --------------------------------------------------------------- whole runs

  /** The pairing identity never changes. */
  lemma {:induction false} RunsKeepIdentity(c: Config, polls: seq<Poll>, d: Config)
    requires Run(c, polls, d)
    ensures SameIdentity(c, d)
    decreases |polls|
  {
    hide Refreshed;
    if polls != [] {
      var tick := Refreshed(c, polls[0].next, polls[0].env);
      TickKeepsIdentity(c, polls[0].next, polls[0].env);
      if !tick.status.BindingStopped? { RunsKeepIdentity(tick.config, polls[1..], d); }
    }
  }

  /** The account is enrolled in every configuration held along the run. */
  ghost predicate AlwaysEnrolled(c: Config, polls: seq<Poll>, id: string)
    decreases |polls|
  {
    Enrolled(c, id) &&
    (polls == [] || AlwaysEnrolled(Refreshed(c, polls[0].next, polls[0].env).config, polls[1..], id))
  }

  /** While an account stays enrolled its binding, pins aside, never changes. */
  lemma {:induction false} RunsKeepBindings(c: Config, polls: seq<Poll>, d: Config, id: string)
    requires Run(c, polls, d) && AlwaysEnrolled(c, polls, id) && SameBinding(c, c, id)
    ensures SameBinding(c, d, id)
    decreases |polls|
  {
    hide Refreshed, SameBinding;
    if polls != [] {
      var tick := Refreshed(c, polls[0].next, polls[0].env);
      TickKeepsBindings(c, polls[0].next, polls[0].env, id);
      if !tick.status.BindingStopped? {
        BindingsAgree(c, tick.config, id);
        RunsKeepBindings(tick.config, polls[1..], d, id);
        BindingsChain(c, tick.config, d, id);
      }
    }
  }

  // --------------------------------------------------------- Claude's own pins

  /** The repin id advances only in a tick that restarted Claude. */
  lemma {:induction false} RepinNeedsRestart(c: Config, next: Config, env: Machine)
    requires Refreshed(c, next, env).config.repinId != c.repinId
    ensures Refreshed(c, next, env).restarted && env.restart.Restarted? && env.claudeOk(next) && PreservesOthers(c, next, env)
    ensures Refreshed(c, next, env).config == next
  {
    hide ValidAttach, BindingChanged, PreservesOthers, Adopted;
  }

  predicate SharedPinsMoved(c: Config, d: Config) { d.nodePath != c.nodePath || d.sdkPath != c.sdkPath }

  /** Nothing stands in the way of taking the next configuration over. */
  predicate TakenOver(c: Config, next: Config, env: Machine) {
    SameIdentity(c, next) && ValidAttach(c, next, env) && !BindingChanged(c, next) && env.adaptersOk && env.refreshOk
  }

  /**
   * Claude's shared Node and SDK pins are taken over without a restart exactly
   * when they change on disk while the repin id does not.
   */
  lemma {:induction false} PinsMoveWithoutRestart(c: Config, next: Config, env: Machine)
    ensures var tick := Refreshed(c, next, env);
            SharedPinsMoved(c, tick.config) && !tick.restarted <==>
            SharedPinsMoved(c, next) && next.repinId == c.repinId && TakenOver(c, next, env)
  {
    hide ValidAttach, BindingChanged, PreservesOthers, Adopted;
  }

  /** Such a tick exists: the new SDK path is held and polled with, and no restart was made. */
  lemma {:induction false} SdkTakenWithoutRestart(c: Config, env: Machine)
    requires c.attach == map[] && c.accounts == [] && c.sdkPath == "/opt/a" && env.adaptersOk && env.refreshOk
    ensures var tick := Refreshed(c, c.(sdkPath := "/opt/b"), env);
            tick.config.sdkPath == "/opt/b" && !tick.restarted
  {
    var next := c.(sdkPath := "/opt/b");
    assert ValidAttach(c, next, env) && !BindingChanged(c, next);
    assert next.sdkPath[5] != c.sdkPath[5];
    hide PreservesOthers, Adopted;
  }

  /** No tick of the run finds new shared pins on disk under the repin id it holds. */
  ghost predicate PinsComeWithRepins(c: Config, polls: seq<Poll>)
    decreases |polls|
  {
    if polls == [] then true
    else
      var next, env := polls[0].next, polls[0].env;
      && !(SharedPinsMoved(c, next) && next.repinId == c.repinId && TakenOver(c, next, env))
      && PinsComeWithRepins(Refreshed(c, next, env).config, polls[1..])
  }

  /** Every move of the shared pins along the run was a restart. */
  ghost predicate PinsMoveByRestart(c: Config, polls: seq<Poll>)
    decreases |polls|
  {
    if polls == [] then true
    else
      var tick := Refreshed(c, polls[0].next, polls[0].env);
      (SharedPinsMoved(c, tick.config) ==> tick.restarted) && PinsMoveByRestart(tick.config, polls[1..])
  }

  /** Over a run the shared pins advance by restarts alone exactly when they never change without a repin. */
  lemma {:induction false} RunsMovePinsByRestart(c: Config, polls: seq<Poll>)
    ensures PinsMoveByRestart(c, polls) <==> PinsComeWithRepins(c, polls)
    decreases |polls|
  {
    hide Refreshed, SharedPinsMoved, TakenOver;
    if polls != [] {
      PinsMoveWithoutRestart(c, polls[0].next, polls[0].env);
      RunsMovePinsByRestart(Refreshed(c, polls[0].next, polls[0].env).config, polls[1..]);
    }
  }
}
