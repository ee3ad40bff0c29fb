/**
 * Masking one object of a denied account in place (`mask` in
 * internal/accountprivacy/privacy.go), and what it means member by member.
 */
module PrivacyMask {
  import opened Wrappers
  import opened PrivacyDocument

  // ------------------------------------------------------------ the mask

  /** The names of the mask's key lists that nothing else treats. */
  const EMPTIED: seq<string> := ["windows", "readings", "facts", "hourly_readings"]

  const BLANKED: seq<string> := ["plan", "quota_fingerprint", "quota_pool_fingerprint"]

  const REMOVED: seq<string> := [
    "usage_policy", "usage_budget", "expired_at", "undo_until", "raised_pace_points", "raised_pace_until", "reset_revision",
    "reset_undo_supported", "undo_supported", "ordinary_usage_allowed", "budget", "openrouter_credits", "probe_failure",
    "limiting_reset", "limit", "spend_month_usd", "learning", "same_quota_as", "resets_at", "until", "read_at",
    "reading_error", "reading_age_seconds", "credit_state", "remaining", "used_percent", "remaining_percent",
    "threshold_percent", "window_key", "severity", "denial_reason", "stop_kind", "backoff_step", "wait_id",
    "early_recovery_used", "cap_percent", "reserve_percent", "reserve_effective_percent", "reserve_until", "awaiting_reading"]

  datatype Treatment = Emptied | Blanked | Removed | Unlisted

  function TreatName(name: string): Treatment {
    if name in REMOVED then Removed else if name in BLANKED then Blanked else if name in EMPTIED then Emptied else Unlisted
  }

  /** Which key list names a member. */
  function Treat(k: Key): Treatment {
    match k
    case LatestReadings | ReadinessResources => Emptied
    case HostReason | NextAttemptAt | CheckResult | PendingCheck | Outcome => Removed
    case Other(name) => TreatName(name)
    case _ => Unlisted
  }

  /** The members the mask sets to null when present. */
  predicate Nulled(k: Key) {
    k == Resets || k == ResetPlan || k == RemainingFraction || k == LastProbeAt || k == LastProbeOk || k == CheckedAt
    || k == MeasuredUsage
  }

  function StateWait(): Json { Obj(map[Code := Str("state"), RunNowAllowed := Bool(false)]) }

  function NeutralDay(): Json {
    Obj(map[CalendarPart("on") := Bool(true), CalendarPart("start") := Num(0.0), CalendarPart("end") := Num(24.0)])
  }

  /** A default calendar with every day open. */
  function NeutralSchedule(): Json {
    Obj(map[
      CalendarPart("timezone") := Str("UTC"), CalendarPart("off_days") := Str("expire"), CalendarPart("nights") := Bool(false),
      CalendarPart("model") := Str("daynight"), CalendarPart("week") := Arr(seq(7, _ => NeutralDay())),
      CalendarPart("night") := Obj(map[CalendarPart("start") := Num(22.0), CalendarPart("end") := Num(8.0), CalendarPart("k") := Num(0.6)]),
      CalendarPart("shifts") := Obj(map[CalendarPart("early") := Num(6.0), CalendarPart("late") := Num(14.0),
                                        CalendarPart("night") := Num(22.0),
                                 CalendarPart("k") := Arr([Num(1.0), Num(1.0), Num(0.5)])]),
      CalendarPart("blocks") := Arr(seq(24, h => if 8 <= h < 22 then Num(1.0) else Num(0.5)))])
  }

  /** A member that is present and true. */
  predicate Yes(m: Fields, k: Key) { k in m && m[k] == Bool(true) }

  /** The projections that carry `details_redacted`. */
  predicate Marked(m: Fields) {
    || (AccountId in m && Availability in m)
    || Routable in m || RegisteredBy in m || Schedule in m || MeasuredUsage in m
  }

  /** Availability only: never a claim about quota. */
  function Reason(m: Fields): Json { Str(if Yes(m, CanTry) then "available" else "unavailable") }

  function BareState(m: Fields): Json { Str(if Yes(m, CanTry) then "unknown" else "blocked") }

  function StateCode(): Json { Str("state") }

  function Suggest(): Json { Str("suggest") }

  function Reasons(m: Fields): Json { Arr(if Yes(m, Available) then [] else [StateCode()]) }

  datatype Fate = Gone | Shows(v: Json) | Kept

  /** What the mask does to a member. */
  function FateOf(m: Fields, k: Key): Fate {
    if k == DetailsRedacted && Marked(m) then Shows(Bool(true))
    else if k == NextCursor && LatestReadings in m then Shows(Str(""))
    else if MeasuredUsage in m && k == NextAttemptAt then Shows(Null)
    else if MeasuredUsage in m && k == ReasonCodes then Shows(Arr([Reason(m)]))
    else if MeasuredUsage in m && k == DisplayReason then Shows(Reason(m))
    else if MeasuredUsage in m && k == State then Shows(BareState(m))
    else if Routable in m && k == Waiting then Shows(StateWait())
    else if k !in m || Treat(k).Removed? || (k == Routing && Routable in m) || (k == Hosts && AccountId in m) then Gone
    else if Treat(k).Emptied? then Shows(Arr([]))
    else if Treat(k).Blanked? then Shows(Str(""))
    else if Nulled(k) then Shows(Null)
    else if k == ResetPolicy then Shows(Suggest())
    else if k == UnavailableReasons then Shows(Reasons(m))
    else if k == Code then Shows(StateCode())
    else if k == CostLimitSupported || k == Routable then Shows(Bool(false))
    else if k == Schedule then Shows(NeutralSchedule())
    else Kept
  }

  /** What a masked object holds at a member: the meaning of `Mask`, member by member. */
  function MaskedField(m: Fields, k: Key): Option<Json> {
    match FateOf(m, k)
    case Gone => None
    case Shows(v) => Some(v)
    case Kept => Lookup(m, k)
  }

  // ------------------------------------------- the mask, statement by statement

  function Lookup(m: Fields, k: Key): Option<Json> { if k in m then Some(m[k]) else None }

  function Replace(m: Fields, key: Key, v: Json): Fields { if key in m then m[key := v] else m }

  function AddWhen(m: Fields, trigger: Key, key: Key, v: Json): Fields { if trigger in m then m[key := v] else m }

  function DropWhen(m: Fields, trigger: Key, key: Key): Fields { if trigger in m then m - {key} else m }

  function Fill(m: Fields, list: Treatment, v: Json): Fields { map k | k in m :: if Treat(k) == list then v else m[k] }

  function Drop(m: Fields, list: Treatment): Fields { map k | k in m && Treat(k) != list :: m[k] }

  function MaskLists(m: Fields): Fields {
    var emptied := AddWhen(Fill(m - {HostReason}, Emptied, Arr([])), LatestReadings, NextCursor, Str(""));
    Drop(Fill(emptied, Blanked, Str("")), Removed)
  }

  function MaskResets(m: Fields): Fields {
    var resets := Replace(Replace(m, Resets, Null), ResetPlan, Null);
    var policy := Replace(Replace(resets, ResetPolicy, Suggest()), RemainingFraction, Null);
    Replace(policy, UnavailableReasons, Reasons(policy))
  }

  function MaskProbes(m: Fields): Fields {
    Replace(Replace(Replace(m, LastProbeAt, Null), LastProbeOk, Null), CheckedAt, Null)
  }

  function MaskMembers(m: Fields): Fields {
    Replace(MaskReadiness(MaskProbes(MaskResets(m))), Code, StateCode())
  }

  function MaskReadiness(m: Fields): Fields {
    if MeasuredUsage !in m then m
    else
      m[MeasuredUsage := Null][NextAttemptAt := Null][ReasonCodes := Arr([Reason(m)])]
       [DisplayReason := Reason(m)][State := BareState(m)]
  }

  function MaskAccount(m: Fields): Fields {
    var marked := if Availability in m then AddWhen(m, AccountId, DetailsRedacted, Bool(true)) else m;
    Replace(DropWhen(marked, AccountId, Hosts), CostLimitSupported, Bool(false))
  }

  function MaskRoute(m: Fields): Fields {
    var waiting := AddWhen(Replace(m, Routable, Bool(false)), Routable, Waiting, StateWait());
    AddWhen(DropWhen(waiting, Routable, Routing), Routable, DetailsRedacted, Bool(true))
  }

  function MaskMarks(m: Fields): Fields {
    var registered := AddWhen(Replace(m, Schedule, NeutralSchedule()), RegisteredBy, DetailsRedacted, Bool(true));
    AddWhen(AddWhen(registered, Schedule, DetailsRedacted, Bool(true)), MeasuredUsage, DetailsRedacted, Bool(true))
  }

  function Mask(m: Fields): Fields { MaskMarks(MaskRoute(MaskAccount(MaskMembers(MaskLists(m))))) }

  method RemoveAll(m: Fields, list: Treatment) returns (obj: Fields)
    ensures obj == Drop(m, list)
  {
    hide Treat;
    obj := m;
    var left := m.Keys;
    while left != {}
      invariant left <= m.Keys
      invariant obj == map k | k in m && (k in left || Treat(k) != list) :: m[k]
      decreases left
    {
      var key :| key in left;
      if Treat(key) == list { obj := obj - {key}; }
      left := left - {key};
    }
  }

  method FillAll(m: Fields, list: Treatment, v: Json) returns (obj: Fields)
    ensures obj == Fill(m, list, v)
  {
    hide Treat;
    obj := m;
    var left := m.Keys;
    while left != {}
      invariant left <= m.Keys
      invariant obj.Keys == m.Keys
      invariant forall k <- m :: obj[k] == if k !in left && Treat(k) == list then v else m[k]
      decreases left
    {
      var key :| key in left;
      if Treat(key) == list { obj := obj[key := v]; }
      left := left - {key};
    }
  }

  /** `mask`, in place on one object. */
  method MaskInPlace(m: Fields) returns (obj: Fields)
    ensures obj == Mask(m)
  {
    hide Treat, Fill, NeutralSchedule, StateWait, Reasons;
    obj := FillAll(m - {HostReason}, Emptied, Arr([]));
    if LatestReadings in obj { obj := obj[NextCursor := Str("")]; }
    obj := FillAll(obj, Blanked, Str(""));
    obj := RemoveAll(obj, Removed);
    assert obj == MaskLists(m);
    obj := MaskMembersInPlace(obj);
    obj := MaskProjectionsInPlace(obj);
  }

  method MaskResetsInPlace(m: Fields) returns (obj: Fields)
    ensures obj == MaskResets(m)
  {
    obj := m;
    if Resets in obj { obj := obj[Resets := Null]; }
    if ResetPlan in obj { obj := obj[ResetPlan := Null]; }
    if ResetPolicy in obj { obj := obj[ResetPolicy := Suggest()]; }
    if RemainingFraction in obj { obj := obj[RemainingFraction := Null]; }
    if UnavailableReasons in obj {
      var reasons: seq<Json> := [];
      if !Yes(obj, Available) { reasons := [StateCode()]; }
      obj := obj[UnavailableReasons := Arr(reasons)];
    }
  }

  method MaskMembersInPlace(m: Fields) returns (obj: Fields)
    ensures obj == MaskMembers(m)
  {
    hide MaskResets, MaskReadiness;
    obj := MaskResetsInPlace(m);
    if LastProbeAt in obj { obj := obj[LastProbeAt := Null]; }
    if LastProbeOk in obj { obj := obj[LastProbeOk := Null]; }
    if CheckedAt in obj { obj := obj[CheckedAt := Null]; }
    obj := MaskReadinessInPlace(obj);
    if Code in obj { obj := obj[Code := StateCode()]; }
  }

  method MaskReadinessInPlace(m: Fields) returns (obj: Fields)
    ensures obj == MaskReadiness(m)
  {
    obj := m;
    if MeasuredUsage in obj {
      obj := obj[MeasuredUsage := Null];
      obj := obj[NextAttemptAt := Null];
      var reason := Str("unavailable");
      if Yes(obj, CanTry) { reason := Str("available"); }
      obj := obj[ReasonCodes := Arr([reason])];
      obj := obj[DisplayReason := reason];
      if Yes(obj, CanTry) { obj := obj[State := Str("unknown")]; } else { obj := obj[State := Str("blocked")]; }
    }
  }

  method MaskRouteInPlace(m: Fields) returns (obj: Fields)
    ensures obj == MaskRoute(m)
  {
    hide StateWait;
    obj := m;
    if Routable in obj {
      obj := obj[Routable := Bool(false)];
      obj := obj[Waiting := StateWait()];
      obj := obj - {Routing};
      obj := obj[DetailsRedacted := Bool(true)];
    }
  }

  method MaskProjectionsInPlace(m: Fields) returns (obj: Fields)
    ensures obj == MaskMarks(MaskRoute(MaskAccount(m)))
  {
    hide NeutralSchedule, StateWait, MaskRoute;
    obj := m;
    if AccountId in obj {
      if Availability in obj { obj := obj[DetailsRedacted := Bool(true)]; }
      obj := obj - {Hosts};
    }
    if CostLimitSupported in obj { obj := obj[CostLimitSupported := Bool(false)]; }
    assert obj == MaskAccount(m);
    obj := MaskRouteInPlace(obj);
    if Schedule in obj { obj := obj[Schedule := NeutralSchedule()]; }
    if RegisteredBy in obj { obj := obj[DetailsRedacted := Bool(true)]; }
    if Schedule in obj { obj := obj[DetailsRedacted := Bool(true)]; }
    if MeasuredUsage in obj { obj := obj[DetailsRedacted := Bool(true)]; }
  }

  // ------------------------------------------------- the mask, member by member

  lemma {:induction false} FillAt(m: Fields, list: Treatment, v: Json, k: Key)
    ensures Lookup(Fill(m, list, v), k) == if k in m && Treat(k) == list then Some(v) else Lookup(m, k)
  {
    hide Treat;
  }

  lemma {:induction false} MaskListsAt(m: Fields, k: Key)
    ensures Lookup(MaskLists(m), k) ==
            if k == NextCursor && LatestReadings in m then Some(Str(""))
            else if k !in m || Treat(k).Removed? then None
            else if Treat(k).Emptied? then Some(Arr([]))
            else if Treat(k).Blanked? then Some(Str(""))
            else Lookup(m, k)
  {
    assert Treat(NextCursor).Unlisted? && Treat(HostReason).Removed?;
    hide Treat, Fill;
    var a := m - {HostReason};
    FillAt(a, Emptied, Arr([]), k);
    FillAt(a, Emptied, Arr([]), LatestReadings);
    FillAt(AddWhen(Fill(a, Emptied, Arr([])), LatestReadings, NextCursor, Str("")), Blanked, Str(""), k);
  }

  lemma {:induction false} ReplaceAt(m: Fields, key: Key, v: Json, k: Key)
    ensures Lookup(Replace(m, key, v), k) == if k == key && Lookup(m, k).Some? then Some(v) else Lookup(m, k)
  {}

  lemma {:induction false} MaskResetsAt(m: Fields, k: Key)
    ensures Lookup(MaskResets(m), k) ==
            if Lookup(m, k).None? then None
            else if k == Resets || k == ResetPlan || k == RemainingFraction then Some(Null)
            else if k == ResetPolicy then Some(Suggest())
            else if k == UnavailableReasons then Some(Reasons(m))
            else Lookup(m, k)
  {
    var a := Replace(m, Resets, Null);
    var b := Replace(a, ResetPlan, Null);
    var c := Replace(b, ResetPolicy, Suggest());
    var d := Replace(c, RemainingFraction, Null);
    assert Reasons(d) == Reasons(m) by {
      assert Lookup(d, Available) == Lookup(m, Available) by {
        hide Lookup, Replace;
        ReplaceAt(m, Resets, Null, Available);
        ReplaceAt(a, ResetPlan, Null, Available);
        ReplaceAt(b, ResetPolicy, Suggest(), Available);
        ReplaceAt(c, RemainingFraction, Null, Available);
      }
      assert Yes(d, Available) == Yes(m, Available);
    }
    hide Lookup, Replace, Reasons;
    ReplaceAt(m, Resets, Null, k);
    ReplaceAt(a, ResetPlan, Null, k);
    ReplaceAt(b, ResetPolicy, Suggest(), k);
    ReplaceAt(c, RemainingFraction, Null, k);
    ReplaceAt(d, UnavailableReasons, Reasons(d), k);
  }

  lemma {:induction false} MaskProbesAt(m: Fields, k: Key)
    ensures Lookup(MaskProbes(m), k) ==
            if Lookup(m, k).Some? && (k == LastProbeAt || k == LastProbeOk || k == CheckedAt) then Some(Null) else Lookup(m, k)
  {
    hide Lookup, Replace;
    var a := Replace(m, LastProbeAt, Null);
    var b := Replace(a, LastProbeOk, Null);
    ReplaceAt(m, LastProbeAt, Null, k);
    ReplaceAt(a, LastProbeOk, Null, k);
    ReplaceAt(b, CheckedAt, Null, k);
  }

  lemma {:induction false} MaskReadinessAt(m: Fields, k: Key)
    ensures Lookup(MaskReadiness(m), k) ==
            if MeasuredUsage !in m then Lookup(m, k)
            else if k == NextAttemptAt || k == MeasuredUsage then Some(Null)
            else if k == ReasonCodes then Some(Arr([Reason(m)]))
            else if k == DisplayReason then Some(Reason(m))
            else if k == State then Some(BareState(m))
            else Lookup(m, k)
  {
    hide Reason;
  }

  lemma {:induction false} ReadinessTriggers(m: Fields)
    ensures var b := MaskProbes(MaskResets(m));
            && (MeasuredUsage in b <==> MeasuredUsage in m) && Yes(b, CanTry) == Yes(m, CanTry)
            && Reason(b) == Reason(m) && BareState(b) == BareState(m)
  {
    var a := MaskResets(m);
    MaskResetsAt(m, CanTry);
    MaskProbesAt(a, CanTry);
    MaskResetsAt(m, MeasuredUsage);
    MaskProbesAt(a, MeasuredUsage);
    hide MaskResets, MaskProbes;
  }

  lemma {:induction false} MembersInOrder(m: Fields)
    ensures MaskMembers(m) == Replace(MaskReadiness(MaskProbes(MaskResets(m))), Code, StateCode())
  {}

  lemma {:induction false} Present(m: Fields, k: Key)
    ensures k in m <==> Lookup(m, k).Some?
    ensures k in m ==> Lookup(m, k) == Some(m[k])
  {}

  lemma {:induction false} NulledMembers(k: Key)
    ensures Nulled(k) <==> k == Resets || k == ResetPlan || k == RemainingFraction || k == LastProbeAt || k == LastProbeOk
                           || k == CheckedAt || k == MeasuredUsage
  {}

  lemma {:induction false} MaskMembersAt(m: Fields, k: Key)
    ensures Lookup(MaskMembers(m), k) ==
            if MeasuredUsage in m && k == NextAttemptAt then Some(Null)
            else if MeasuredUsage in m && k == ReasonCodes then Some(Arr([Reason(m)]))
            else if MeasuredUsage in m && k == DisplayReason then Some(Reason(m))
            else if MeasuredUsage in m && k == State then Some(BareState(m))
            else if Lookup(m, k).None? then None
            else if Nulled(k) then Some(Null)
            else if k == ResetPolicy then Some(Suggest())
            else if k == UnavailableReasons then Some(Reasons(m))
            else if k == Code then Some(StateCode())
            else Lookup(m, k)
  {
    hide *;
    NulledMembers(k);
    var a := MaskResets(m);
    var b := MaskProbes(a);
    var c := MaskReadiness(b);
    MembersInOrder(m);
    Present(m, MeasuredUsage);
    ReadinessTriggers(m);
    MaskResetsAt(m, k);
    MaskProbesAt(a, k);
    MaskReadinessAt(b, k);
    ReplaceAt(c, Code, StateCode(), k);
  }

  lemma {:induction false} AddWhenAt(m: Fields, trigger: Key, key: Key, v: Json, k: Key)
    ensures Lookup(AddWhen(m, trigger, key, v), k) == if k == key && Lookup(m, trigger).Some? then Some(v) else Lookup(m, k)
  {}

  lemma {:induction false} DropWhenAt(m: Fields, trigger: Key, key: Key, k: Key)
    ensures Lookup(DropWhen(m, trigger, key), k) == if k == key && Lookup(m, trigger).Some? then None else Lookup(m, k)
  {}

  lemma {:induction false} MaskAccountAt(m: Fields, k: Key)
    ensures Lookup(MaskAccount(m), k) ==
            if k == DetailsRedacted && AccountId in m && Availability in m then Some(Bool(true))
            else if k == Hosts && AccountId in m then None
            else if k == CostLimitSupported && Lookup(m, k).Some? then Some(Bool(false))
            else Lookup(m, k)
  {
    Present(m, AccountId);
    Present(m, k);
    var marked := if Availability in m then AddWhen(m, AccountId, DetailsRedacted, Bool(true)) else m;
    var bare := DropWhen(marked, AccountId, Hosts);
    hide Lookup, Replace, AddWhen, DropWhen;
    AddWhenAt(m, AccountId, DetailsRedacted, Bool(true), k);
    AddWhenAt(m, AccountId, DetailsRedacted, Bool(true), AccountId);
    DropWhenAt(marked, AccountId, Hosts, k);
    ReplaceAt(bare, CostLimitSupported, Bool(false), k);
  }

  lemma {:induction false} MaskRouteAt(m: Fields, k: Key)
    ensures Lookup(MaskRoute(m), k) ==
            if Routable !in m then Lookup(m, k)
            else if k == Routable then Some(Bool(false))
            else if k == Waiting then Some(StateWait())
            else if k == DetailsRedacted then Some(Bool(true))
            else if k == Routing then None
            else Lookup(m, k)
  {
    hide StateWait;
  }

  lemma {:induction false} MaskMarksAt(m: Fields, k: Key)
    ensures Lookup(MaskMarks(m), k) ==
            if k == Schedule && Lookup(m, k).Some? then Some(NeutralSchedule())
            else if k == DetailsRedacted && (RegisteredBy in m || Schedule in m || MeasuredUsage in m) then Some(Bool(true))
            else Lookup(m, k)
  {
    hide NeutralSchedule;
  }

  predicate Trigger(k: Key) {
    k.AccountId? || k.Availability? || k.Routable? || k.RegisteredBy? || k.Schedule? || k.MeasuredUsage? || k.CanTry? || k.Available?
  }

  lemma {:induction false} TriggersAreUnlisted(k: Key)
    requires Trigger(k)
    ensures Treat(k).Unlisted? && (Nulled(k) <==> k.MeasuredUsage?)
    ensures !(k.ReasonCodes? || k.DisplayReason? || k.State? || k.NextAttemptAt? || k.NextCursor? || k.Routing? || k.Hosts?)
  {}

  /** The triggers of later steps are neither added nor removed by earlier ones. */
  lemma {:induction false} TriggersStay(m: Fields, k: Key)
    requires Trigger(k)
    ensures (k in MaskLists(m) <==> k in m) && (k in MaskMembers(MaskLists(m)) <==> k in m)
    ensures k == CanTry || k == Available ==> Lookup(MaskLists(m), k) == Lookup(m, k)
  {
    var listed := MaskLists(m);
    TriggersAreUnlisted(k);
    hide *;
    Present(m, k);
    Present(listed, k);
    Present(MaskMembers(listed), k);
    MaskListsAt(m, k);
    MaskMembersAt(listed, k);
  }

  lemma {:induction false} SameAvailability(m: Fields)
    ensures Reasons(MaskLists(m)) == Reasons(m) && Reason(MaskLists(m)) == Reason(m) && BareState(MaskLists(m)) == BareState(m)
  {
    TriggersStay(m, CanTry);
    TriggersStay(m, Available);
    hide MaskLists, MaskMembers, MaskAccount, MaskRoute;
  }

  lemma {:induction false} TriggersKept(m: Fields)
    ensures var listed := MaskLists(m);
            var replaced := MaskMembers(listed);
            && (MeasuredUsage in listed <==> MeasuredUsage in m) && (AccountId in replaced <==> AccountId in m)
            && (Routable in replaced <==> Routable in m) && (Marked(replaced) <==> Marked(m))
  {
    hide MaskLists, MaskMembers;
    TriggersStay(m, AccountId);
    TriggersStay(m, Availability);
    TriggersStay(m, Routable);
    TriggersStay(m, RegisteredBy);
    TriggersStay(m, Schedule);
    TriggersStay(m, MeasuredUsage);
  }

  lemma {:induction false} ProjectionTriggers(m: Fields)
    ensures var account := MaskAccount(m);
            var route := MaskRoute(account);
            && (Routable in account <==> Routable in m) && (RegisteredBy in route <==> RegisteredBy in m)
            && (Schedule in route <==> Schedule in m) && (MeasuredUsage in route <==> MeasuredUsage in m)
  {}

  /** The last three steps together. */
  lemma {:induction false} MaskProjectionsAt(m: Fields, k: Key)
    ensures Lookup(MaskMarks(MaskRoute(MaskAccount(m))), k) ==
            if k == DetailsRedacted && Marked(m) then Some(Bool(true))
            else if k == Waiting && Routable in m then Some(StateWait())
            else if (k == Routing && Routable in m) || (k == Hosts && AccountId in m) then None
            else if (k == CostLimitSupported || k == Routable) && Lookup(m, k).Some? then Some(Bool(false))
            else if k == Schedule && Lookup(m, k).Some? then Some(NeutralSchedule())
            else Lookup(m, k)
  {
    var account := MaskAccount(m);
    var route := MaskRoute(account);
    ProjectionTriggers(m);
    Present(m, k);
    MaskAccountAt(m, k);
    MaskRouteAt(account, k);
    MaskMarksAt(route, k);
    hide StateWait, NeutralSchedule, MaskAccount, MaskRoute, MaskMarks, Lookup;
  }

  /** No member is both on a key list and replaced by name, but for the next attempt. */
  lemma {:induction false} ListedNames(k: Key)
    ensures !Treat(k).Unlisted? ==>
              !(k.DetailsRedacted? || k.NextCursor? || k.ReasonCodes? || k.DisplayReason? || k.State? || k.Waiting? || k.Hosts?
                || k.Routing? || k.ResetPolicy? || k.UnavailableReasons? || k.Code? || k.CostLimitSupported? || k.Routable?
                || k.Schedule? || Nulled(k))
    ensures Treat(NextAttemptAt).Removed?
    ensures Nulled(k) ==> !(k.NextCursor? || k.DetailsRedacted? || k.Hosts? || k.Routing? || k.Routable? || k.CostLimitSupported?
                            || k.Waiting? || k.Schedule?)
  {}

  lemma {:induction false} StagesInOrder(m: Fields)
    ensures Mask(m) == MaskMarks(MaskRoute(MaskAccount(MaskMembers(MaskLists(m)))))
  {}

  /** `mask` means `MaskedField`, member by member. */
  lemma {:induction false} MaskAt(m: Fields, k: Key)
    ensures Lookup(Mask(m), k) == MaskedField(m, k)
  {
    hide Treat, Nulled, MaskLists, MaskMembers, MaskAccount, MaskRoute, MaskMarks, Mask, StateWait, NeutralSchedule, StateCode,
      Suggest, Reasons, Reason, BareState, Lookup, Marked;
    var listed := MaskLists(m);
    var replaced := MaskMembers(listed);
    StagesInOrder(m);
    TriggersKept(m);
    SameAvailability(m);
    ListedNames(k);
    Present(m, k);
    MaskListsAt(m, k);
    MaskMembersAt(listed, k);
    MaskProjectionsAt(replaced, k);
  }
}
