/**
 * Withdrawing a revoked account from a quota outlook that was built under an
 * older policy (internal/agentaccounts/quota_outlook_redact.go). Times are
 * nanoseconds since the zero time.
 */
module QuotaOutlook {
  import opened Sharing
  import opened Wrappers

  const SECOND: int := 1_000_000_000
  const MAX_INT64: int := 0x7FFF_FFFF_FFFF_FFFF

  datatype Forecast = Forecast(kind: string, at: Option<int>, refillAt: Option<int>, unused: Option<real>)

  datatype Account = Account(
    id: string, title: string, state: string, pooled: bool, used: Option<real>, limit: Option<real>,
    resetsAt: Option<int>, readAt: Option<int>, age: Option<int>, freshness: string, forecast: Option<Forecast>)

  datatype Pool = Pool(accounts: nat, used: real, left: real, sampledAt: int, age: int)

  datatype Pace = Pace(perHour24h: Option<real>, perHour6h: Option<real>, safePerHour: Option<real>, measuredHours: real)

  datatype Headline = Headline(
    kind: string, at: Option<int>, until: Option<int>, account: string, unused: Option<real>, focusAt: Option<int>)

  datatype Hour = Hour(at: int, known: bool, empty: bool, burn: seq<real>)

  datatype Refill = Refill(at: int, account: string)

  datatype Point = Point(at: int, percent: real)

  datatype Line = Line(points: seq<Point>, refills: seq<Refill>, empty: seq<Point>)

  datatype Group = Group(
    harness: string, state: string, accounts: seq<Account>, pool: Option<Pool>, pace: Pace, verdict: string,
    headline: Headline, history: seq<Hour>, pastLine: seq<Point>, pastRefills: seq<Refill>,
    current: Option<Line>, safe: Option<Line>, projected: seq<Hour>)

  const NO_PACE: Pace := Pace(None, None, None, 0.0)

  function Bare(kind: string): Headline { Headline(kind, None, None, "", None, None) }

  // -------------------------------------------------- what an account discloses

  predicate Disclosed(a: Account) {
    a.pooled || a.forecast.Some? || a.used.Some? || a.readAt.Some? || a.limit.Some?
  }

  predicate BurnsIn(hours: seq<Hour>, index: nat) {
    exists k :: 0 <= k < |hours| && index < |hours[k].burn| && hours[k].burn[index] != 0.0
  }

  predicate RefillsIn(refills: seq<Refill>, id: string) {
    exists k :: 0 <= k < |refills| && refills[k].account == id
  }

  predicate LineNames(line: Option<Line>, id: string) { line.Some? && RefillsIn(line.value.refills, id) }

  /** The row's quota is inside a joint figure, not only on its own row. */
  predicate Contributed(g: Group, index: nat)
    requires index < |g.accounts|
  {
    var a := g.accounts[index];
    || a.pooled || a.forecast.Some?
    || (g.headline.account == a.id && g.headline.kind != "" && g.headline.kind != "not_reported")
    || BurnsIn(g.history, index) || BurnsIn(g.projected, index)
    || RefillsIn(g.pastRefills, a.id) || LineNames(g.current, a.id) || LineNames(g.safe, a.id)
  }

  method FindBurn(hours: seq<Hour>, index: nat) returns (found: bool)
    ensures found <==> BurnsIn(hours, index)
  {
    for k := 0 to |hours|
      invariant forall j :: 0 <= j < k ==> !(index < |hours[j].burn| && hours[j].burn[index] != 0.0)
    {
      if index < |hours[k].burn| && hours[k].burn[index] != 0.0 { return true; }
    }
    found := false;
  }

  method FindRefill(refills: seq<Refill>, id: string) returns (found: bool)
    ensures found <==> RefillsIn(refills, id)
  {
    for k := 0 to |refills|
      invariant forall j :: 0 <= j < k ==> refills[j].account != id
    {
      if refills[k].account == id { return true; }
    }
    found := false;
  }

  /** `outlookContributed`. */
  method FindContribution(g: Group, index: nat) returns (found: bool)
    requires index < |g.accounts|
    ensures found <==> Contributed(g, index)
  {
    var a := g.accounts[index];
    if a.pooled || a.forecast.Some? { return true; }
    if g.headline.account == a.id && g.headline.kind != "" && g.headline.kind != "not_reported" { return true; }
    found := FindBurn(g.history, index);
    if found { return; }
    found := FindBurn(g.projected, index);
    if found { return; }
    found := FindRefill(g.pastRefills, a.id);
    if found { return; }
    if g.current.Some? {
      found := FindRefill(g.current.value.refills, a.id);
      if found { return; }
    }
    if g.safe.Some? {
      found := FindRefill(g.safe.value.refills, a.id);
    }
  }

  // ------------------------------------------------------- the redacted group

  /** A disclosed row of an account the policy now denies. */
  predicate Denied(g: Group, p: Policy, i: int) {
    0 <= i < |g.accounts| && !Allows(p, g.accounts[i].id) && Disclosed(g.accounts[i])
  }

  predicate AnyDenied(g: Group, p: Policy) { exists i :: 0 <= i < |g.accounts| && Denied(g, p, i) }

  predicate DeniedID(g: Group, p: Policy, id: string) {
    exists i :: 0 <= i < |g.accounts| && Denied(g, p, i) && g.accounts[i].id == id
  }

  /** A denied row is inside a joint figure. */
  predicate Joint(g: Group, p: Policy) {
    exists i :: 0 <= i < |g.accounts| && Denied(g, p, i) && Contributed(g, i)
  }

  function Private(a: Account): Account {
    a.(state := "private", freshness := "unknown", pooled := false, used := None, limit := None, resetsAt := None,
       readAt := None, age := None, forecast := None)
  }

  /** A remaining row without the joint projection. */
  function Unprojected(a: Account): Account {
    var b := a.(forecast := None);
    if a.state != "active" then b
    else if a.used.Some? && a.limit.Some? && a.used.value >= a.limit.value - 0.000000001 then b.(state := "full")
    else b.(state := "ready")
  }

  function RedactedAccounts(g: Group, p: Policy): (r: seq<Account>)
    ensures |r| == |g.accounts|
  {
    seq(|g.accounts|, i requires 0 <= i < |g.accounts| =>
      if Denied(g, p, i) then Private(g.accounts[i])
      else if Joint(g, p) then Unprojected(g.accounts[i]) else g.accounts[i])
  }

  predicate Touched(g: Group, p: Policy, h: Hour) { exists i :: 0 <= i < |h.burn| && Denied(g, p, i) }

  function RedactedHour(g: Group, p: Policy, h: Hour): Hour {
    h.(burn := seq(|h.burn|, i requires 0 <= i < |h.burn| => if Denied(g, p, i) then 0.0 else h.burn[i]),
       empty := h.empty && !Touched(g, p, h))
  }

  function KeptRefills(g: Group, p: Policy, refills: seq<Refill>): seq<Refill> {
    if refills == [] then []
    else
      KeptRefills(g, p, refills[..|refills| - 1])
      + (if DeniedID(g, p, refills[|refills| - 1].account) then [] else [refills[|refills| - 1]])
  }

  predicate Held(accounts: seq<Account>) { exists i :: 0 <= i < |accounts| && accounts[i].state == "held" }

  predicate Usable(a: Account) { a.state == "ready" || a.state == "full" || a.state == "active" }

  predicate Ready(accounts: seq<Account>) { exists i :: 0 <= i < |accounts| && Usable(accounts[i]) }

  /** Joint figures withdrawn, and the pool rebuilt from the remaining rows. */
  function Withdrawn(g: Group, p: Policy, at: int): Group {
    var accounts := RedactedAccounts(g, p);
    g.(accounts := accounts,
       history := seq(|g.history|, k requires 0 <= k < |g.history| => RedactedHour(g, p, g.history[k])),
       pastRefills := KeptRefills(g, p, g.pastRefills), pastLine := [], current := None, safe := None, projected := [],
       pace := NO_PACE, verdict := "unknown", headline := Bare("unknown"), pool := RebuiltPool(accounts, at))
  }

  /** The group's state, from the rows that are left. */
  function Settled(g: Group): Group {
    if Held(g.accounts) && !Ready(g.accounts) then g.(state := "held", headline := Bare("held"), pool := None)
    else if !Ready(g.accounts) then g.(state := "not_reported", headline := Bare("not_reported"), history := [], pool := None)
    else g.(state := "measured")
  }

  function RedactedGroup(g: Group, p: Policy, at: int): Group {
    if !AnyDenied(g, p) then g
    else Settled(if Joint(g, p) then Withdrawn(g, p, at) else g.(accounts := RedactedAccounts(g, p)))
  }

  // ------------------------------------------------------------ the pool mean

  /** The rows a pool is the mean of. */
  predicate InPool(a: Account) { a.pooled && a.used.Some? }

  function LeftSum(accounts: seq<Account>): real {
    if accounts == [] then 0.0
    else
      var a := accounts[|accounts| - 1];
      LeftSum(accounts[..|accounts| - 1]) + (if InPool(a) then 100.0 - a.used.value else 0.0)
  }

  function PoolCount(accounts: seq<Account>): nat {
    if accounts == [] then 0
    else PoolCount(accounts[..|accounts| - 1]) + (if InPool(accounts[|accounts| - 1]) then 1 else 0)
  }

  /** The newest reading of a pooled row; the zero time when none was read. */
  function Sampled(accounts: seq<Account>): int {
    if accounts == [] then 0
    else
      var a := accounts[|accounts| - 1];
      var before := Sampled(accounts[..|accounts| - 1]);
      if InPool(a) && a.readAt.Some? && a.readAt.value > before then a.readAt.value else before
  }

  /** Rounding to one decimal, half away from zero. */
  function Round1(v: real): real {
    if v >= 0.0 then (v * 10.0 + 0.5).Floor as real / 10.0 else -((-v * 10.0 + 0.5).Floor as real / 10.0)
  }

  /** A saturating time difference in whole seconds, never negative. */
  function AgeSeconds(at: int, sampled: int): int {
    var d := at - sampled;
    if d <= 0 then 0 else (if d > MAX_INT64 then MAX_INT64 else d) / SECOND
  }

  function RebuiltPool(accounts: seq<Account>, at: int): Option<Pool> {
    var n := PoolCount(accounts);
    if n == 0 then None
    else
      var left := LeftSum(accounts) / n as real;
      Some(Pool(n, Round1(100.0 - left), Round1(left), Sampled(accounts), AgeSeconds(at, Sampled(accounts))))
  }

  method RebuildPool(accounts: seq<Account>, at: int) returns (pool: Option<Pool>)
    ensures pool == RebuiltPool(accounts, at)
  {
    var left, n, sampled := 0.0, 0, 0;
    for i := 0 to |accounts|
      invariant left == LeftSum(accounts[..i]) && n == PoolCount(accounts[..i]) && sampled == Sampled(accounts[..i])
    {
      var a := accounts[i];
      assert accounts[..i + 1][..i] == accounts[..i];
      if !a.pooled || a.used.None? { continue; }
      left := left + (100.0 - a.used.value);
      n := n + 1;
      if a.readAt.Some? && a.readAt.value > sampled { sampled := a.readAt.value; }
    }
    assert accounts[..|accounts|] == accounts;
    if n == 0 { return None; }
    left := left / n as real;
    var age := AgeSeconds(at, sampled);
    pool := Some(Pool(n, Round1(100.0 - left), Round1(left), sampled, age));
  }

  // ----------------------------------------------------- the group, in place

  /** One group of a decoded outlook. */
  class OutlookGroup {
    var state: string
    var accounts: seq<Account>
    var pool: Option<Pool>
    var pace: Pace
    var verdict: string
    var headline: Headline
    var history: seq<Hour>
    var pastLine: seq<Point>
    var pastRefills: seq<Refill>
    var current: Option<Line>
    var safe: Option<Line>
    var projected: seq<Hour>
    const harness: string

    constructor (g: Group)
      ensures View() == g
    {
      harness := g.harness;
      state, accounts, pool, pace, verdict, headline := g.state, g.accounts, g.pool, g.pace, g.verdict, g.headline;
      history, pastLine, pastRefills := g.history, g.pastLine, g.pastRefills;
      current, safe, projected := g.current, g.safe, g.projected;
    }

    function View(): Group
      reads this
    {
      Group(harness, state, accounts, pool, pace, verdict, headline, history, pastLine, pastRefills, current, safe, projected)
    }

    /** `redactOutlookGroup`. */
    method Redact(p: Policy, at: int)
      modifies this
      ensures View() == RedactedGroup(old(View()), p, at)
    {
      ghost var g := View();
      hide Contributed, Disclosed, RebuiltPool, Settled, KeptRefills, Touched, Denied, DeniedID, Joint, Withdrawn, Private,
        Unprojected, ZeroedHour, OtherRefills, AnyDenied;
      var deniedAt, deniedIDs, withhold := MarkDenied(p);
      MarksAreRows(g, p, deniedAt);
      if deniedAt == {} { return; }
      HideDenied(deniedAt);
      if withhold {
        WithdrawHistory(deniedAt);
        ClearJoint(deniedIDs);
        HideForecasts(deniedAt);
        pool := RebuildPool(accounts, at);
        WithdrawnFields(g, p, deniedAt, deniedIDs, View(), at);
      } else {
        assert accounts == RedactedAccounts(g, p);
        assert View() == g.(accounts := accounts);
      }
      Settle();
    }

    /** The first pass: which rows go, and whether any was inside a joint figure. */
    method MarkDenied(p: Policy) returns (deniedAt: set<nat>, deniedIDs: set<string>, withhold: bool)
      ensures forall i :: i in deniedAt <==> Denied(View(), p, i)
      ensures forall id :: id in deniedIDs <==> DeniedID(View(), p, id)
      ensures withhold <==> Joint(View(), p)
    {
      hide Contributed, Disclosed;
      var g := View();
      deniedAt, deniedIDs, withhold := {}, {}, false;
      for i := 0 to |accounts|
        invariant forall j :: j in deniedAt <==> 0 <= j < i && Denied(g, p, j)
        invariant forall id :: id in deniedIDs <==> exists j :: 0 <= j < i && Denied(g, p, j) && g.accounts[j].id == id
        invariant withhold <==> exists j :: 0 <= j < i && Denied(g, p, j) && Contributed(g, j)
      {
        var a := accounts[i];
        if Allows(p, a.id) || !Disclosed(a) { continue; }
        var contributed := FindContribution(g, i);
        assert Denied(g, p, i);
        deniedAt, deniedIDs := deniedAt + {i}, deniedIDs + {a.id};
        if contributed { withhold := true; }
      }
    }

    method HideDenied(deniedAt: set<nat>)
      requires forall i <- deniedAt :: i < |accounts|
      modifies this`accounts
      ensures |accounts| == |old(accounts)|
      ensures forall i :: 0 <= i < |accounts| ==> accounts[i] == if i in deniedAt then Private(old(accounts)[i]) else old(accounts)[i]
    {
      for i := 0 to |accounts|
        invariant |accounts| == |old(accounts)|
        invariant forall k :: 0 <= k < |accounts| ==>
                    accounts[k] == if k < i && k in deniedAt then Private(old(accounts)[k]) else old(accounts)[k]
      {
        if i in deniedAt { accounts := accounts[i := Private(accounts[i])]; }
      }
    }

    method WithdrawHistory(deniedAt: set<nat>)
      modifies this`history
      ensures |history| == |old(history)|
      ensures forall k :: 0 <= k < |history| ==> history[k] == ZeroedHour(old(history)[k], deniedAt)
    {
      for k := 0 to |history|
        invariant |history| == |old(history)|
        invariant forall j :: 0 <= j < |history| ==> history[j] == if j < k then ZeroedHour(old(history)[j], deniedAt) else old(history)[j]
      {
        var hour := WithdrawHour(history[k], deniedAt);
        history := history[k := hour];
      }
    }

    method ClearJoint(deniedIDs: set<string>)
      modifies this`pastRefills, this`pastLine, this`current, this`safe, this`projected, this`pace, this`verdict, this`headline
      ensures pastRefills == OtherRefills(old(pastRefills), deniedIDs)
      ensures pastLine == [] && current.None? && safe.None? && projected == []
      ensures pace == NO_PACE && verdict == "unknown" && headline == Bare("unknown")
    {
      var kept: seq<Refill> := [];
      for k := 0 to |pastRefills|
        invariant kept == OtherRefills(pastRefills[..k], deniedIDs)
      {
        assert pastRefills[..k + 1][..k] == pastRefills[..k];
        if pastRefills[k].account !in deniedIDs { kept := kept + [pastRefills[k]]; }
      }
      assert pastRefills[..|pastRefills|] == pastRefills;
      pastRefills := kept;
      pastLine, current, safe, projected := [], None, None, [];
      pace, verdict, headline := NO_PACE, "unknown", Bare("unknown");
    }

    method HideForecasts(deniedAt: set<nat>)
      modifies this`accounts
      ensures |accounts| == |old(accounts)|
      ensures forall i :: 0 <= i < |accounts| ==>
                accounts[i] == if i in deniedAt then old(accounts)[i] else Unprojected(old(accounts)[i])
    {
      for i := 0 to |accounts|
        invariant |accounts| == |old(accounts)|
        invariant forall k :: 0 <= k < |accounts| ==>
                    accounts[k] == if k < i && k !in deniedAt then Unprojected(old(accounts)[k]) else old(accounts)[k]
      {
        if i in deniedAt { continue; }
        var a := accounts[i];
        if a.state == "active" {
          a := a.(state := "ready");
          if a.used.Some? && a.limit.Some? && a.used.value >= a.limit.value - 0.000000001 { a := a.(state := "full"); }
        }
        accounts := accounts[i := a.(forecast := None)];
      }
    }

    method Settle()
      modifies this`state, this`headline, this`pool, this`history
      ensures View() == Settled(old(View()))
    {
      var anyHeld, anyReady := false, false;
      for i := 0 to |accounts|
        invariant anyHeld <==> exists k :: 0 <= k < i && accounts[k].state == "held"
        invariant anyReady <==> exists k :: 0 <= k < i && Usable(accounts[k])
      {
        if accounts[i].state == "held" { anyHeld := true; }
        else if Usable(accounts[i]) { anyReady := true; }
      }
      if anyHeld && !anyReady {
        state, headline, pool := "held", Bare("held"), None;
      } else if !anyReady {
        state, headline, history, pool := "not_reported", Bare("not_reported"), [], None;
      } else {
        state := "measured";
      }
    }
  }

  lemma {:induction false} MarksAreRows(g: Group, p: Policy, deniedAt: set<nat>)
    requires forall i :: i in deniedAt <==> Denied(g, p, i)
    ensures AnyDenied(g, p) <==> deniedAt != {}
    ensures forall i <- deniedAt :: i < |g.accounts|
  {}

  function ZeroedHour(h: Hour, deniedAt: set<nat>): Hour {
    h.(burn := seq(|h.burn|, i requires 0 <= i < |h.burn| => if i in deniedAt then 0.0 else h.burn[i]),
       empty := h.empty && !exists i :: 0 <= i < |h.burn| && i in deniedAt)
  }

  method WithdrawHour(h: Hour, deniedAt: set<nat>) returns (hour: Hour)
    ensures hour == ZeroedHour(h, deniedAt)
  {
    hour := h;
    var touched := false;
    for i := 0 to |h.burn|
      invariant |hour.burn| == |h.burn| && hour == h.(burn := hour.burn)
      invariant forall k :: 0 <= k < |h.burn| ==> hour.burn[k] == if k < i && k in deniedAt then 0.0 else h.burn[k]
      invariant touched <==> exists k :: 0 <= k < i && k in deniedAt
    {
      if i in deniedAt {
        hour := hour.(burn := hour.burn[i := 0.0]);
        touched := true;
      }
    }
    if touched { hour := hour.(empty := false); }
    assert hour.burn == ZeroedHour(h, deniedAt).burn;
  }

  function OtherRefills(refills: seq<Refill>, ids: set<string>): seq<Refill> {
    if refills == [] then []
    else
      OtherRefills(refills[..|refills| - 1], ids)
      + (if refills[|refills| - 1].account in ids then [] else [refills[|refills| - 1]])
  }

  lemma {:induction false} SameRefills(g: Group, p: Policy, refills: seq<Refill>, ids: set<string>)
    requires forall id :: id in ids <==> DeniedID(g, p, id)
    ensures OtherRefills(refills, ids) == KeptRefills(g, p, refills)
  {
    hide DeniedID;
    if refills != [] { SameRefills(g, p, refills[..|refills| - 1], ids); }
  }

  lemma {:induction false} SameHour(g: Group, p: Policy, h: Hour, deniedAt: set<nat>)
    requires forall i :: i in deniedAt <==> Denied(g, p, i)
    ensures ZeroedHour(h, deniedAt) == RedactedHour(g, p, h)
  {
    hide Denied;
    assert ZeroedHour(h, deniedAt).burn == RedactedHour(g, p, h).burn;
  }

  /** The fields written in place are the withdrawn group. */
  lemma {:induction false} WithdrawnFields(g: Group, p: Policy, deniedAt: set<nat>, ids: set<string>, w: Group, at: int)
    requires (forall i :: i in deniedAt <==> Denied(g, p, i)) && forall id :: id in ids <==> DeniedID(g, p, id)
    requires Joint(g, p) && |w.accounts| == |g.accounts| && |w.history| == |g.history|
    requires forall i :: 0 <= i < |g.accounts| ==>
               w.accounts[i] == if i in deniedAt then Private(g.accounts[i]) else Unprojected(g.accounts[i])
    requires forall k :: 0 <= k < |g.history| ==> w.history[k] == ZeroedHour(g.history[k], deniedAt)
    requires w == g.(accounts := w.accounts, history := w.history, pastRefills := OtherRefills(g.pastRefills, ids),
                     pastLine := [], current := None, safe := None, projected := [], pace := NO_PACE, verdict := "unknown",
                     headline := Bare("unknown"), pool := RebuiltPool(w.accounts, at))
    ensures w == Withdrawn(g, p, at)
  {
    SameRefills(g, p, g.pastRefills, ids);
    forall k | 0 <= k < |g.history| ensures w.history[k] == RedactedHour(g, p, g.history[k]) {
      SameHour(g, p, g.history[k], deniedAt);
    }
    hide Denied, Joint, RedactedHour, RebuiltPool, KeptRefills, Private, Unprojected;
    assert w.accounts == RedactedAccounts(g, p);
    assert w.history == Withdrawn(g, p, at).history;
  }
}
