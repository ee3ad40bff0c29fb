/** What an outlook shows after a sharing policy changed. */
module QuotaOutlookLaws {
  import opened Sharing
  import opened Wrappers
  import opened QuotaOutlook

  // ------------------------------------------------- nothing of a denied row

  lemma {:induction false} RowsAfter(g: Group, p: Policy, at: int)
    requires AnyDenied(g, p)
    ensures RedactedGroup(g, p, at).accounts == RedactedAccounts(g, p)
  {
    hide RedactedAccounts, Joint, Denied, RebuiltPool, KeptRefills, RedactedHour, Held, Ready;
  }

  lemma {:induction false} RowAfter(g: Group, p: Policy, i: nat)
    requires i < |g.accounts|
    ensures var a := RedactedAccounts(g, p)[i];
            if Denied(g, p, i) then a == Private(g.accounts[i]) else a == if Joint(g, p) then Unprojected(g.accounts[i]) else g.accounts[i]
  {
    hide Joint, Denied, Unprojected, Private;
  }

  /** No denied account discloses a figure any more. */
  lemma {:induction false} NothingDisclosed(g: Group, p: Policy, at: int)
    ensures !AnyDenied(RedactedGroup(g, p, at), p)
  {
    if AnyDenied(g, p) {
      var r := RedactedGroup(g, p, at);
      RowsAfter(g, p, at);
      forall i | 0 <= i < |r.accounts| ensures !Denied(r, p, i) {
        RowAfter(g, p, i);
        hide RedactedGroup, RedactedAccounts, Joint;
      }
      hide RedactedGroup, RedactedAccounts;
    }
  }

  /** Redacting again, at any later time, changes nothing. */
  lemma {:induction false} OutlookIsIdempotent(g: Group, p: Policy, at: int, later: int)
    ensures RedactedGroup(RedactedGroup(g, p, at), p, later) == RedactedGroup(g, p, at)
  {
    NothingDisclosed(g, p, at);
    hide AnyDenied, Settled, Withdrawn, Joint, RedactedAccounts;
  }

  lemma {:induction false} KeptAreOthers(g: Group, p: Policy, refills: seq<Refill>, id: string)
    requires DeniedID(g, p, id)
    ensures !RefillsIn(KeptRefills(g, p, refills), id)
  {
    hide DeniedID;
    if refills != [] { KeptAreOthers(g, p, refills[..|refills| - 1], id); }
  }

  /** The joint figures of a group name neither a row nor its account. */
  ghost predicate Traceless(r: Group, index: nat, id: string) {
    && !BurnsIn(r.history, index) && !BurnsIn(r.projected, index)
    && !RefillsIn(r.pastRefills, id) && !LineNames(r.current, id) && !LineNames(r.safe, id)
    && (r.headline.account == id ==> r.headline.kind == "" || r.headline.kind == "not_reported" || id == "")
  }

  lemma {:induction false} ZeroedBurn(g: Group, p: Policy, i: nat)
    requires Denied(g, p, i)
    ensures !BurnsIn(seq(|g.history|, k requires 0 <= k < |g.history| => RedactedHour(g, p, g.history[k])), i)
  {
    var rows := seq(|g.history|, k requires 0 <= k < |g.history| => RedactedHour(g, p, g.history[k]));
    forall k | 0 <= k < |rows| && i < |rows[k].burn|
      ensures rows[k].burn[i] == 0.0
    {
      hide Denied, Touched;
      assert rows[k] == RedactedHour(g, p, g.history[k]);
    }
    hide RedactedHour, Denied;
  }

  lemma {:induction false} SettledIsTraceless(r: Group, index: nat, id: string)
    requires Traceless(r, index, id)
    ensures Traceless(Settled(r), index, id)
  {
    assert !BurnsIn([], index);
    hide BurnsIn, RefillsIn, LineNames, Held, Ready;
  }

  /**
   * A denied row is blanked, and no joint figure leads back to it: not the
   * burn, the projection, a refill, a line or the headline.
   */
  lemma {:induction false} DeniedRowsLeaveNoTrace(g: Group, p: Policy, at: int, i: nat)
    requires Denied(g, p, i)
    ensures var r := RedactedGroup(g, p, at);
            && |r.accounts| == |g.accounts| && r.accounts[i] == Private(g.accounts[i])
            && Traceless(r, i, g.accounts[i].id)
  {
    var id := g.accounts[i].id;
    assert AnyDenied(g, p) && DeniedID(g, p, id);
    RowsAfter(g, p, at);
    RowAfter(g, p, i);
    if Joint(g, p) {
      var w := Withdrawn(g, p, at);
      ZeroedBurn(g, p, i);
      KeptAreOthers(g, p, g.pastRefills, id);
      assert Traceless(w, i, id) by { hide RedactedHour, RebuiltPool, RedactedAccounts, Denied, DeniedID, Joint, AnyDenied; }
      SettledIsTraceless(w, i, id);
    } else {
      var w := g.(accounts := RedactedAccounts(g, p));
      assert !Contributed(g, i);
      assert Traceless(w, i, id) by { hide RedactedAccounts, Denied, DeniedID, Joint, AnyDenied, BurnsIn, RefillsIn; }
      SettledIsTraceless(w, i, id);
    }
    hide RedactedAccounts, Traceless, Settled, Withdrawn, Joint, Denied, Private;
  }

  // ----------------------------------------- independence of denied readings

  /**
   * Two groups that tell the same about everyone else: they differ in denied
   * rows' readings and in joint figures only. Both have a denied row inside a
   * joint figure. A burn row that reaches no denied account must agree on
   * whether the pool was empty.
   */
  ghost predicate SameButDenied(g: Group, h: Group, p: Policy) {
    && g.harness == h.harness && |g.accounts| == |h.accounts| && |g.history| == |h.history|
    && Joint(g, p) && Joint(h, p)
    && (forall i :: 0 <= i < |g.accounts| ==> SameRow(g, h, p, i))
    && (forall k :: 0 <= k < |g.history| ==> SameHourRow(g, p, g.history[k], h.history[k]))
    && KeptRefills(g, p, g.pastRefills) == KeptRefills(g, p, h.pastRefills)
  }

  predicate SameRow(g: Group, h: Group, p: Policy, i: nat)
    requires i < |g.accounts| == |h.accounts|
  {
    var a, b := g.accounts[i], h.accounts[i];
    && a.id == b.id && a.title == b.title
    && (Denied(g, p, i) <==> Denied(h, p, i))
    && (!Denied(g, p, i) ==> a.(forecast := None) == b.(forecast := None))
  }

  predicate SameHourRow(g: Group, p: Policy, a: Hour, b: Hour) {
    && a.at == b.at && a.known == b.known && |a.burn| == |b.burn|
    && (forall i :: 0 <= i < |a.burn| && !Denied(g, p, i) ==> a.burn[i] == b.burn[i])
    && (a.empty == b.empty || Touched(g, p, a))
  }

  lemma {:induction false} SameDenied(g: Group, h: Group, p: Policy)
    requires |g.accounts| == |h.accounts| && forall i :: 0 <= i < |g.accounts| ==> SameRow(g, h, p, i)
    ensures forall i :: Denied(g, p, i) <==> Denied(h, p, i)
    ensures forall id :: DeniedID(g, p, id) <==> DeniedID(h, p, id)
  {
    forall i
      ensures Denied(g, p, i) <==> Denied(h, p, i)
      ensures 0 <= i < |g.accounts| ==> g.accounts[i].id == h.accounts[i].id
    {
      if 0 <= i < |g.accounts| { assert SameRow(g, h, p, i); }
      hide Disclosed;
    }
    hide SameRow, Denied;
  }

  lemma {:induction false} SameKept(g: Group, h: Group, p: Policy, refills: seq<Refill>)
    requires forall id :: DeniedID(g, p, id) <==> DeniedID(h, p, id)
    ensures KeptRefills(g, p, refills) == KeptRefills(h, p, refills)
  {
    hide DeniedID;
    if refills != [] { SameKept(g, h, p, refills[..|refills| - 1]); }
  }

  lemma {:induction false} SameAccountsAfter(g: Group, h: Group, p: Policy)
    requires SameButDenied(g, h, p)
    ensures RedactedAccounts(g, p) == RedactedAccounts(h, p)
  {
    forall i | 0 <= i < |g.accounts|
      ensures RedactedAccounts(g, p)[i] == RedactedAccounts(h, p)[i]
    {
      assert SameRow(g, h, p, i);
      RowAfter(g, p, i);
      RowAfter(h, p, i);
      hide RedactedAccounts, Denied, Joint, SameButDenied;
    }
    hide RedactedAccounts, SameRow, Joint;
  }

  lemma {:induction false} SameHourAfter(g: Group, h: Group, p: Policy, a: Hour, b: Hour)
    requires (forall i :: Denied(g, p, i) <==> Denied(h, p, i)) && SameHourRow(g, p, a, b)
    ensures RedactedHour(g, p, a) == RedactedHour(h, p, b)
  {
    hide Denied;
    assert RedactedHour(g, p, a).burn == RedactedHour(h, p, b).burn;
  }

  /** The redacted group is the same whatever the denied rows read and the joint figures said. */
  lemma {:induction false} DeniedReadingsAreIrrelevant(g: Group, h: Group, p: Policy, at: int)
    requires SameButDenied(g, h, p)
    ensures RedactedGroup(g, p, at) == RedactedGroup(h, p, at)
  {
    SameDenied(g, h, p);
    SameAccountsAfter(g, h, p);
    SameKept(g, h, p, h.pastRefills);
    var v, w := Withdrawn(g, p, at), Withdrawn(h, p, at);
    forall k | 0 <= k < |g.history|
      ensures v.history[k] == w.history[k]
    {
      SameHourAfter(g, h, p, g.history[k], h.history[k]);
      hide RedactedHour, Denied, Touched, KeptRefills, RebuiltPool, RedactedAccounts;
    }
    assert AnyDenied(g, p) && AnyDenied(h, p);
    assert v.history == w.history;
    AfterIsWithdrawn(v, w, g, h, p);
    assert Settled(v) == Settled(w) by {
      OnlyStateDiffers(v, w);
      hide *;
    }
    hide *;
    JointGroups(g, p, at);
    JointGroups(h, p, at);
  }

  lemma {:induction false} JointGroups(g: Group, p: Policy, at: int)
    requires Joint(g, p)
    ensures RedactedGroup(g, p, at) == Settled(Withdrawn(g, p, at))
  {
    hide Settled, Withdrawn, Contributed, Denied;
  }

  /** Settling overwrites the group's own state. */
  lemma {:induction false} OnlyStateDiffers(v: Group, w: Group)
    requires v.(state := w.state) == w
    ensures Settled(v) == Settled(w)
  {
    assert v.accounts == w.accounts;
    hide Held, Ready;
  }

  lemma {:induction false} AfterIsWithdrawn(v: Group, w: Group, g: Group, h: Group, p: Policy)
    requires exists at :: v == Withdrawn(g, p, at) && w == Withdrawn(h, p, at)
    requires g.harness == h.harness && RedactedAccounts(g, p) == RedactedAccounts(h, p) && v.history == w.history
    requires KeptRefills(g, p, g.pastRefills) == KeptRefills(h, p, h.pastRefills)
    ensures v.(state := w.state) == w
  {
    hide RedactedAccounts, KeptRefills, RebuiltPool, RedactedHour;
  }

  // ------------------------------------------------------------ the pool mean

  lemma {:induction false} CountedWhenPooled(accounts: seq<Account>)
    ensures PoolCount(accounts) == 0 <==> forall a <- accounts :: !InPool(a)
    ensures PoolCount(accounts) == 0 ==> LeftSum(accounts) == 0.0
  {
    hide InPool;
    if accounts != [] {
      var front := accounts[..|accounts| - 1];
      CountedWhenPooled(front);
      assert accounts == front + [accounts[|accounts| - 1]];
    }
  }

  lemma {:induction false} SampledIsNewest(accounts: seq<Account>)
    ensures forall a <- accounts :: InPool(a) && a.readAt.Some? ==> a.readAt.value <= Sampled(accounts)
    ensures Sampled(accounts) == 0 || exists a <- accounts :: InPool(a) && a.readAt == Some(Sampled(accounts))
  {
    hide InPool;
    if accounts != [] {
      var front := accounts[..|accounts| - 1];
      SampledIsNewest(front);
      assert accounts == front + [accounts[|accounts| - 1]];
    }
  }

  lemma {:induction false} RoundIsNear(v: real)
    ensures v - 0.05 <= Round1(v) <= v + 0.05
  {}

  /**
   * The mean over exactly the pooled rows: none when there are none, otherwise
   * the sum of what they have left over their number, rounded to a tenth, dated
   * by the newest of their readings.
   */
  ghost predicate ExactMean(accounts: seq<Account>, pool: Option<Pool>) {
    && (pool.None? <==> forall a <- accounts :: !InPool(a))
    && (pool.Some? ==>
          && pool.value.accounts == PoolCount(accounts) > 0
          && (exists left: real :: Reports(pool.value, left, LeftSum(accounts)))
          && pool.value.sampledAt == Sampled(accounts)
          && (forall a <- accounts :: InPool(a) && a.readAt.Some? ==> a.readAt.value <= pool.value.sampledAt))
  }

  /** `left` times the number of rows is the sum, and the pool shows it to the nearest tenth. */
  ghost predicate Reports(pool: Pool, left: real, sum: real) {
    && left * pool.accounts as real == sum
    && pool.left == Round1(left) && pool.used == Round1(100.0 - left)
    && left - 0.05 <= pool.left <= left + 0.05
  }

  function Mean(sum: real, n: nat): real
    requires n > 0
  {
    sum / n as real
  }

  lemma {:induction false} MeanTimes(sum: real, n: nat)
    requires n > 0
    ensures Mean(sum, n) * n as real == sum
  {}

  lemma {:induction false} ReportsMean(pool: Pool, sum: real)
    requires pool.accounts > 0
    requires pool.left == Round1(Mean(sum, pool.accounts)) && pool.used == Round1(100.0 - Mean(sum, pool.accounts))
    ensures Reports(pool, Mean(sum, pool.accounts), sum)
  {
    hide Mean, Round1;
    RoundIsNear(Mean(sum, pool.accounts));
    MeanTimes(sum, pool.accounts);
  }

  lemma {:induction false} RebuiltIsExactMean(accounts: seq<Account>, at: int)
    ensures ExactMean(accounts, RebuiltPool(accounts, at))
  {
    hide LeftSum, PoolCount, Sampled, Round1, AgeSeconds, InPool, RebuiltPool, Reports, Mean;
    CountedWhenPooled(accounts);
    SampledIsNewest(accounts);
    RebuiltFields(accounts, at);
    if PoolCount(accounts) > 0 { ReportsMean(RebuiltPool(accounts, at).value, LeftSum(accounts)); }
  }

  lemma {:induction false} RebuiltFields(accounts: seq<Account>, at: int)
    ensures RebuiltPool(accounts, at).None? <==> PoolCount(accounts) == 0
    ensures PoolCount(accounts) > 0 ==>
              var left := Mean(LeftSum(accounts), PoolCount(accounts));
              var pool := RebuiltPool(accounts, at).value;
              && pool.accounts == PoolCount(accounts) && pool.sampledAt == Sampled(accounts)
              && pool.left == Round1(left) && pool.used == Round1(100.0 - left)
  {
    hide LeftSum, PoolCount, Sampled, Round1, AgeSeconds;
  }

  lemma {:induction false} SettledPool(w: Group)
    ensures Settled(w).accounts == w.accounts
    ensures Settled(w).pool == if Settled(w).state == "measured" then w.pool else None
  {
    hide Held, Ready;
  }

  /** Whenever the group still counts as measured, its pool is the exact mean over the rows still pooled. */
  lemma {:induction false} PoolIsExactMean(g: Group, p: Policy, at: int)
    requires Joint(g, p)
    ensures var r := RedactedGroup(g, p, at);
            if r.state == "measured" then ExactMean(r.accounts, r.pool) else r.pool.None?
  {
    JointGroups(g, p, at);
    var w := Withdrawn(g, p, at);
    RebuiltIsExactMean(w.accounts, at);
    assert w.pool == RebuiltPool(w.accounts, at);
    SettledPool(w);
    hide *;
  }

  /** A row stays in the pool exactly when it was pooled and is not denied. */
  lemma {:induction false} PooledRowsAreTheOthers(g: Group, p: Policy, at: int, i: nat)
    requires AnyDenied(g, p) && i < |g.accounts|
    ensures var r := RedactedGroup(g, p, at);
            |r.accounts| == |g.accounts| && (InPool(r.accounts[i]) <==> InPool(g.accounts[i]) && !Denied(g, p, i))
            && (InPool(r.accounts[i]) ==> r.accounts[i].used == g.accounts[i].used)
  {
    RowsAfter(g, p, at);
    RowAfter(g, p, i);
    hide RedactedGroup, RedactedAccounts, Joint, Denied;
  }

  // --------------------------------------------------------- the whole outlook

  function RedactedAll(groups: seq<Group>, p: Policy, at: int): (r: seq<Group>)
    ensures |r| == |groups|
  {
    seq(|groups|, i requires 0 <= i < |groups| => RedactedGroup(groups[i], p, at))
  }

  /** `redactOutlook`: nothing to do when no denied account discloses anything. */
  method RedactOutlook(groups: seq<Group>, p: Policy, at: int) returns (out: seq<Group>)
    ensures out == RedactedAll(groups, p, at)
    ensures (forall g <- groups :: !AnyDenied(g, p)) ==> out == groups
    ensures forall g <- out :: !AnyDenied(g, p)
  {
    hide RedactedGroup, AnyDenied;
    var found := false;
    for i := 0 to |groups|
      invariant found <==> exists k :: 0 <= k < i && AnyDenied(groups[k], p)
    {
      if AnyDenied(groups[i], p) { found := true; }
    }
    forall i | 0 <= i < |groups|
      ensures !AnyDenied(groups[i], p) ==> RedactedGroup(groups[i], p, at) == groups[i]
      ensures !AnyDenied(RedactedGroup(groups[i], p, at), p)
    {
      Undisturbed(groups[i], p, at);
      NothingDisclosed(groups[i], p, at);
    }
    out := groups;
    if found {
      for i := 0 to |groups|
        invariant |out| == |groups|
        invariant forall k :: 0 <= k < |groups| ==> out[k] == if k < i then RedactedGroup(groups[k], p, at) else groups[k]
      {
        var group := new OutlookGroup(groups[i]);
        group.Redact(p, at);
        out := out[i := group.View()];
      }
    }
  }

  lemma {:induction false} Undisturbed(g: Group, p: Policy, at: int)
    ensures !AnyDenied(g, p) ==> RedactedGroup(g, p, at) == g
  {}
}
