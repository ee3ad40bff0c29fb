/**
 * What a redacted outlook shows, row by row and figure by figure, said of the
 * outlook and the policy alone (internal/agentaccounts/quota_outlook_redact.go).
 */
module QuotaOutlookPromise {
  import opened Sharing
  import opened Wrappers
  import opened QuotaOutlook
  import Laws = QuotaOutlookLaws

  /** The policy does not allow the row's account, and the row tells something of it. */
  ghost predicate Gone(g: Group, p: Policy, i: int) {
    0 <= i < |g.accounts| &&
    var a := g.accounts[i];
    && (a.id in p ==> !p[a.id])
    && (a.pooled || a.forecast != None || a.used != None || a.readAt != None || a.limit != None)
  }

  /** The row's quota went into a figure the group shows for all its rows. */
  ghost predicate InFigures(g: Group, i: int)
    requires 0 <= i < |g.accounts|
  {
    var a := g.accounts[i];
    || a.pooled || a.forecast != None
    || (g.headline.account == a.id && g.headline.kind != "" && g.headline.kind != "not_reported")
    || (exists h <- g.history :: i < |h.burn| && h.burn[i] != 0.0)
    || (exists h <- g.projected :: i < |h.burn| && h.burn[i] != 0.0)
    || (exists f <- g.pastRefills :: f.account == a.id)
    || (g.current.Some? && exists f <- g.current.value.refills :: f.account == a.id)
    || (g.safe.Some? && exists f <- g.safe.value.refills :: f.account == a.id)
  }

  /** Something of a withdrawn row is inside a joint figure. */
  ghost predicate Tainted(g: Group, p: Policy) { exists i :: Gone(g, p, i) && InFigures(g, i) }

  /** What becomes of a row: a withdrawn one keeps its name only, another at most loses its projection. */
  predicate RowTells(a: Account, b: Account, gone: bool, tainted: bool) {
    if gone then
      && b.id == a.id && b.title == a.title && b.state == "private" && b.freshness == "unknown" && !b.pooled
      && b.used == None && b.limit == None && b.resetsAt == None && b.readAt == None && b.age == None && b.forecast == None
    else if !tainted then b == a
    else
      && b == a.(state := b.state, forecast := None)
      && (a.state != "active" ==> b.state == a.state)
      && (a.state == "active" ==>
            b.state == if a.used.Some? && a.limit.Some? && a.limit.value <= a.used.value + 0.000000001 then "full" else "ready")
  }

  /** What becomes of an hour: withdrawn rows burnt nothing, and with one among them it is not said to be empty. */
  ghost predicate HourTells(g: Group, p: Policy, h: Hour, k: Hour) {
    && k.at == h.at && k.known == h.known && |k.burn| == |h.burn|
    && (forall i :: 0 <= i < |h.burn| ==> k.burn[i] == if Gone(g, p, i) then 0.0 else h.burn[i])
    && (k.empty <==> h.empty && forall i :: 0 <= i < |h.burn| ==> !Gone(g, p, i))
  }

  predicate InTime(refills: seq<Refill>) { forall i, j :: 0 <= i < j < |refills| ==> refills[i].at <= refills[j].at }

  /** The refills of the accounts that are not withdrawn, each as often as before, and still in time order. */
  ghost predicate RefillsTell(g: Group, p: Policy, kept: seq<Refill>) {
    && (InTime(g.pastRefills) ==> InTime(kept))
    && forall f: Refill ::
         multiset(kept)[f] ==
         if exists i :: Gone(g, p, i) && g.accounts[i].id == f.account then 0 else multiset(g.pastRefills)[f]
  }

  /** Nothing is projected, and no pace or verdict given. */
  predicate NoProjection(r: Group) {
    && r.pastLine == [] && r.current == None && r.safe == None && r.projected == []
    && r.pace == Pace(None, None, None, 0.0) && r.verdict == "unknown"
  }

  /** A headline that tells no more than why there is none. */
  predicate Silent(h: Headline, kind: string) { h == Headline(kind, None, None, "", None, None) }

  /** The state the rows that are left give the group, and what it then shows no more. */
  ghost predicate StateTells(r: Group) {
    && ((exists a <- r.accounts :: a.state == "ready" || a.state == "full" || a.state == "active") <==> r.state == "measured")
    && (r.state != "measured" ==>
          && r.state == (if exists a <- r.accounts :: a.state == "held" then "held" else "not_reported")
          && r.pool == None && Silent(r.headline, r.state) && (r.state == "not_reported" ==> r.history == []))
  }

  lemma {:induction false} DeniedIsGone(g: Group, p: Policy)
    ensures forall i :: Denied(g, p, i) <==> Gone(g, p, i)
  {}

  lemma {:induction false} BurnsAre(hours: seq<Hour>, i: nat)
    ensures BurnsIn(hours, i) <==> exists h <- hours :: i < |h.burn| && h.burn[i] != 0.0
  {}

  lemma {:induction false} RefillsAre(refills: seq<Refill>, id: string)
    ensures RefillsIn(refills, id) <==> exists f <- refills :: f.account == id
  {}

  lemma {:induction false} ContributedIsInFigures(g: Group, i: nat)
    requires i < |g.accounts|
    ensures Contributed(g, i) <==> InFigures(g, i)
  {
    var id := g.accounts[i].id;
    BurnsAre(g.history, i);
    BurnsAre(g.projected, i);
    RefillsAre(g.pastRefills, id);
    if g.current.Some? { RefillsAre(g.current.value.refills, id); }
    if g.safe.Some? { RefillsAre(g.safe.value.refills, id); }
    hide BurnsIn, RefillsIn;
  }

  lemma {:induction false} JointIsTainted(g: Group, p: Policy)
    ensures Joint(g, p) <==> Tainted(g, p)
    ensures AnyDenied(g, p) <==> exists i :: Gone(g, p, i)
  {
    DeniedIsGone(g, p);
    forall i: nat | i < |g.accounts| ensures Contributed(g, i) <==> InFigures(g, i) {
      ContributedIsInFigures(g, i);
      hide *;
    }
    hide Denied, Contributed, InFigures;
  }

  lemma {:induction false} RowsTell(g: Group, p: Policy)
    ensures forall i :: 0 <= i < |g.accounts| ==>
              RowTells(g.accounts[i], RedactedAccounts(g, p)[i], Gone(g, p, i), Tainted(g, p))
  {
    DeniedIsGone(g, p);
    JointIsTainted(g, p);
    forall i | 0 <= i < |g.accounts|
      ensures RowTells(g.accounts[i], RedactedAccounts(g, p)[i], Gone(g, p, i), Tainted(g, p))
    {
      Laws.RowAfter(g, p, i);
      hide RedactedAccounts, Gone, Tainted, Joint, Denied;
    }
  }

  lemma {:induction false} HoursTell(g: Group, p: Policy, h: Hour)
    ensures HourTells(g, p, h, RedactedHour(g, p, h))
  {
    DeniedIsGone(g, p);
    hide Denied, Gone;
  }

  lemma {:induction false} KeptTell(g: Group, p: Policy, refills: seq<Refill>, f: Refill)
    ensures multiset(KeptRefills(g, p, refills))[f] == if DeniedID(g, p, f.account) then 0 else multiset(refills)[f]
  {
    hide DeniedID;
    if refills != [] {
      var front := refills[..|refills| - 1];
      assert refills == front + [refills[|refills| - 1]];
      KeptTell(g, p, front, f);
    }
  }

  lemma {:induction false} KeptInTime(g: Group, p: Policy, refills: seq<Refill>)
    requires InTime(refills)
    ensures InTime(KeptRefills(g, p, refills)) && forall f <- KeptRefills(g, p, refills) :: f in refills
  {
    hide DeniedID;
    if refills != [] {
      var front, last := refills[..|refills| - 1], refills[|refills| - 1];
      assert refills == front + [last];
      KeptInTime(g, p, front);
      forall f | f in front ensures f.at <= last.at {
        var k :| 0 <= k < |front| && front[k] == f;
        assert refills[k] == f;
      }
    }
  }

  lemma {:induction false} PastRefillsTell(g: Group, p: Policy)
    ensures RefillsTell(g, p, KeptRefills(g, p, g.pastRefills))
  {
    DeniedIsGone(g, p);
    if InTime(g.pastRefills) { KeptInTime(g, p, g.pastRefills); }
    forall f: Refill
      ensures multiset(KeptRefills(g, p, g.pastRefills))[f] ==
              if exists i :: Gone(g, p, i) && g.accounts[i].id == f.account then 0 else multiset(g.pastRefills)[f]
    {
      KeptTell(g, p, g.pastRefills, f);
      hide Denied, KeptRefills;
    }
  }

  lemma {:induction false} SettledTells(w: Group)
    ensures StateTells(Settled(w))
    ensures var r := Settled(w);
            && r == w.(state := r.state, headline := r.headline, pool := r.pool, history := r.history)
            && (r.state == "measured" ==> r == w.(state := "measured"))
            && (r.state != "not_reported" ==> r.history == w.history)
  {
    HeldAndReady(w.accounts);
    hide Held, Ready;
  }

  lemma {:induction false} HeldAndReady(accounts: seq<Account>)
    ensures Held(accounts) <==> exists a <- accounts :: a.state == "held"
    ensures Ready(accounts) <==> exists a <- accounts :: a.state == "ready" || a.state == "full" || a.state == "active"
  {}

  /**
   * Redaction, as the policy promises it. Without a withdrawn row nothing
   * changes. With one, every row and the group's state are as told; with one
   * inside a joint figure, so are the hours, the refills and the headline, and
   * nothing is projected; otherwise all else stays.
   */
  lemma {:induction false} OutlookTells(g: Group, p: Policy, at: int)
    ensures var r := RedactedGroup(g, p, at);
            if !exists i :: Gone(g, p, i) then r == g
            else
              && r.harness == g.harness && |r.accounts| == |g.accounts| && StateTells(r)
              && (forall i :: 0 <= i < |g.accounts| ==> RowTells(g.accounts[i], r.accounts[i], Gone(g, p, i), Tainted(g, p)))
              && (if Tainted(g, p) then
                    && NoProjection(r) && RefillsTell(g, p, r.pastRefills)
                    && (r.state == "measured" ==> Silent(r.headline, "unknown"))
                    && (r.state != "not_reported" ==>
                          |r.history| == |g.history| && forall k :: 0 <= k < |g.history| ==> HourTells(g, p, g.history[k], r.history[k]))
                  else
                    && r == g.(accounts := r.accounts, state := r.state, headline := r.headline, pool := r.pool, history := r.history)
                    && (r.state == "measured" ==> r.headline == g.headline && r.pool == g.pool && r.history == g.history)
                    && (r.state == "held" ==> r.history == g.history))
  {
    JointIsTainted(g, p);
    RowsTell(g, p);
    if exists i :: Gone(g, p, i) {
      hide Gone, RowTells, StateTells, Tainted, Joint, AnyDenied, RedactedAccounts;
      if Tainted(g, p) {
        var w := Withdrawn(g, p, at);
        WithdrawnTells(g, p, at);
        SettledTells(w);
        hide Withdrawn, Settled, HourTells, RefillsTell;
      } else {
        SettledTells(g.(accounts := RedactedAccounts(g, p)));
        hide Withdrawn, Settled;
      }
    }
  }

  lemma {:induction false} WithdrawnTells(g: Group, p: Policy, at: int)
    ensures var w := Withdrawn(g, p, at);
            && w.harness == g.harness && w.accounts == RedactedAccounts(g, p)
            && NoProjection(w) && RefillsTell(g, p, w.pastRefills) && Silent(w.headline, "unknown")
            && |w.history| == |g.history| && forall k :: 0 <= k < |g.history| ==> HourTells(g, p, g.history[k], w.history[k])
  {
    PastRefillsTell(g, p);
    forall k | 0 <= k < |g.history| ensures HourTells(g, p, g.history[k], Withdrawn(g, p, at).history[k]) {
      HoursTell(g, p, g.history[k]);
      hide HourTells, RedactedHour, RebuiltPool, RedactedAccounts, KeptRefills;
    }
    hide HourTells, RefillsTell, RedactedHour, RebuiltPool, RedactedAccounts, KeptRefills;
  }

  // ------------------------------------------------------------- the pool

  /** The pooled figures, in order. */
  function PooledUses(accounts: seq<Account>): seq<real> {
    if accounts == [] then []
    else (if accounts[0].pooled && accounts[0].used != None then [accounts[0].used.value] else []) + PooledUses(accounts[1..])
  }

  function Sum(xs: seq<real>): real { if xs == [] then 0.0 else xs[0] + Sum(xs[1..]) }

  predicate Tenths(x: real) { (x * 10.0).Floor as real == x * 10.0 }

  /** The shown tenth is nearest to the share: of `n` rows, `total` in all. */
  ghost predicate Nearest(shown: real, total: real, n: nat) {
    Tenths(shown) && total - 0.05 * n as real <= shown * n as real <= total + 0.05 * n as real
  }

  /**
   * The pool is there when a row is pooled: the mean of their uses and of what
   * they have left, to the nearest tenth, dated by the newest reading among
   * them, its age in whole seconds up to 292 years.
   */
  ghost predicate PoolTells(accounts: seq<Account>, pool: Option<Pool>, at: int) {
    var uses := PooledUses(accounts);
    if uses == [] then pool == None
    else
      && pool != None && pool.value.accounts == |uses|
      && Nearest(pool.value.used, Sum(uses), |uses|)
      && Nearest(pool.value.left, 100.0 * |uses| as real - Sum(uses), |uses|)
      && NewestReading(accounts, pool.value.sampledAt)
      && var late := at - pool.value.sampledAt;
         && (late <= 0 ==> pool.value.age == 0)
         && (0 <= late <= 0x7FFF_FFFF_FFFF_FFFF ==> pool.value.age * 1_000_000_000 <= late < (pool.value.age + 1) * 1_000_000_000)
         && (late > 0x7FFF_FFFF_FFFF_FFFF ==> pool.value.age == 9_223_372_036)
  }

  ghost predicate NewestReading(accounts: seq<Account>, sampledAt: int) {
    && sampledAt >= 0
    && (forall a <- accounts :: a.pooled && a.used != None && a.readAt != None ==> a.readAt.value <= sampledAt)
    && (sampledAt == 0 || exists a <- accounts :: a.pooled && a.used != None && a.readAt == Some(sampledAt))
  }

  lemma {:induction false} UsesOf(accounts: seq<Account>, a: Account)
    ensures PooledUses(accounts + [a]) == PooledUses(accounts) + if a.pooled && a.used != None then [a.used.value] else []
  {
    if accounts == [] {
      assert accounts + [a] == [a] && [a][1..] == [];
    } else {
      assert (accounts + [a])[0] == accounts[0] && (accounts + [a])[1..] == accounts[1..] + [a];
      UsesOf(accounts[1..], a);
    }
  }

  lemma {:induction false} SumOf(xs: seq<real>, x: real)
    ensures Sum(xs + [x]) == Sum(xs) + x
  {
    if xs == [] {
      assert xs + [x] == [x] && [x][1..] == [];
    } else {
      assert (xs + [x])[0] == xs[0] && (xs + [x])[1..] == xs[1..] + [x];
      SumOf(xs[1..], x);
    }
  }

  lemma {:induction false} PoolSums(accounts: seq<Account>)
    ensures PoolCount(accounts) == |PooledUses(accounts)|
    ensures LeftSum(accounts) == 100.0 * |PooledUses(accounts)| as real - Sum(PooledUses(accounts))
  {
    if accounts != [] {
      var front, last := accounts[..|accounts| - 1], accounts[|accounts| - 1];
      PoolSums(front);
      assert accounts == front + [last];
      UsesOf(front, last);
      hide PooledUses, Sum;
      if InPool(last) {
        SumOf(PooledUses(front), last.used.value);
      } else {
        assert PooledUses(front) + [] == PooledUses(front);
      }
    } else {
      assert Sum([]) == 0.0;
    }
  }

  lemma {:induction false} RoundsToTenth(v: real)
    ensures Tenths(Round1(v)) && v - 0.05 <= Round1(v) <= v + 0.05
  {
    if v >= 0.0 {
      TenthsOf((v * 10.0 + 0.5).Floor);
    } else {
      TenthsOf(-(-v * 10.0 + 0.5).Floor);
    }
  }

  lemma {:induction false} TenthsOf(n: int)
    ensures Tenths(n as real / 10.0)
  {
    assert n as real / 10.0 * 10.0 == n as real;
  }

  lemma {:induction false} NearestShare(share: real, total: real, n: nat)
    requires share * n as real == total
    ensures Nearest(Round1(share), total, n)
  {
    RoundsToTenth(share);
    hide Tenths, Round1;
    Scaled(share - 0.05, Round1(share), n);
    Scaled(Round1(share), share + 0.05, n);
  }

  lemma {:induction false} Scaled(a: real, b: real, n: nat)
    requires a <= b
    ensures a * n as real <= b * n as real
  {}

  lemma {:induction false} AgeTells(at: int, sampled: int)
    ensures var late, age := at - sampled, AgeSeconds(at, sampled);
            && age >= 0 && (late <= 0 ==> age == 0)
            && (0 <= late <= 0x7FFF_FFFF_FFFF_FFFF ==> age * 1_000_000_000 <= late < (age + 1) * 1_000_000_000)
            && (late > 0x7FFF_FFFF_FFFF_FFFF ==> age == 9_223_372_036)
  {}

  lemma {:induction false} SampledTells(accounts: seq<Account>)
    ensures NewestReading(accounts, Sampled(accounts))
  {
    if accounts != [] {
      var front, last := accounts[..|accounts| - 1], accounts[|accounts| - 1];
      SampledTells(front);
      assert accounts == front + [last];
    }
  }

  lemma {:induction false} RebuiltTells(accounts: seq<Account>, at: int)
    ensures PoolTells(accounts, RebuiltPool(accounts, at), at)
  {
    PoolSums(accounts);
    SampledTells(accounts);
    AgeTells(at, Sampled(accounts));
    hide PooledUses, Sum, Sampled, AgeSeconds, Round1, LeftSum, PoolCount, NewestReading, Nearest;
    var n := PoolCount(accounts);
    if n > 0 {
      var left := LeftSum(accounts) / n as real;
      assert left * n as real == LeftSum(accounts);
      assert (100.0 - left) * n as real == 100.0 * n as real - LeftSum(accounts);
      NearestShare(left, LeftSum(accounts), n);
      NearestShare(100.0 - left, 100.0 * n as real - LeftSum(accounts), n);
    }
  }

  /** After a joint figure was withdrawn a measured group shows the pool of the rows that are left, computed anew. */
  lemma {:induction false} RebuiltPoolTells(g: Group, p: Policy, at: int)
    requires Tainted(g, p)
    ensures var r := RedactedGroup(g, p, at);
            r.state == "measured" ==> PoolTells(r.accounts, r.pool, at)
  {
    JointIsTainted(g, p);
    Laws.JointGroups(g, p, at);
    var w := Withdrawn(g, p, at);
    RebuiltTells(w.accounts, at);
    Laws.SettledPool(w);
    assert w.pool == RebuiltPool(w.accounts, at) by { hide RebuiltPool, RedactedAccounts, RedactedHour, KeptRefills; }
    hide *;
  }
}
