/**
 * What a reader is promised not to learn, in the members of the published
 * documents and without regard to how internal/accountprivacy/privacy.go masks
 * them: which members an object of an account that is not shared withholds,
 * what they show instead, whose an object is, and what an event may still tell.
 */
module PrivacyPromise {
  import opened Sharing
  import opened UuidText
  import opened Wrappers
  import opened PrivacyDocument

  // ------------------------------------------------------- whose an object is

  /** The text under a member, if it is an account id. */
  predicate Identifies(m: Fields, k: Key, id: string) { k in m && m[k] == Str(id) && Uuid(id) }

  /** An object names its account, or is the account itself: a registered one, or a guard row. */
  ghost predicate BelongsTo(m: Fields, id: string) {
    || Identifies(m, AccountId, id)
    || ((forall other: string :: !Identifies(m, AccountId, other)) && Identifies(m, Id, id)
        && (RegisteredBy in m || (Posture in m && KeepForYou in m)))
  }

  /** The account of an object, else the one of what encloses it. */
  ghost predicate Governs(g: string, m: Fields, inherited: string) {
    BelongsTo(m, g) || (g == inherited && forall other: string :: !BelongsTo(m, other))
  }

  // The walk's reading of whose an object is.

  lemma {:induction false} IdsAreTexts(id: string)
    requires Uuid(id)
    ensures id != ""
  {}

  lemma {:induction false} AccountBelongs(m: Fields, g: string)
    ensures BelongsTo(m, g) <==> g != "" && g == AccountID(m)
  {
    forall k: Key, id: string
      ensures Identifies(m, k, id) <==> UuidAt(m, k) == Some(id)
      ensures Identifies(m, k, id) ==> id != ""
    {
      if Identifies(m, k, id) { IdsAreTexts(id); }
      hide Uuid;
    }
    hide Uuid, Identifies, UuidAt;
    if UuidAt(m, AccountId).Some? { assert Identifies(m, AccountId, UuidAt(m, AccountId).value); }
    if UuidAt(m, Id).Some? { assert Identifies(m, Id, UuidAt(m, Id).value); }
  }

  lemma {:induction false} GovernorGoverns(m: Fields, id: string, g: string)
    ensures Governs(g, m, id) <==> g == Governor(m, id)
  {
    hide BelongsTo, AccountID;
    forall other: string ensures BelongsTo(m, other) <==> other != "" && other == AccountID(m) { AccountBelongs(m, other); }
    if AccountID(m) != "" { assert BelongsTo(m, AccountID(m)); }
  }

  /** The reader may not see what the policy is about. */
  predicate Hides(policy: Policy, g: string) { g != "" && !(g in policy && policy[g]) }

  // ---------------------------------------------------------- what is withheld

  const PACE_NAMES: seq<string> := [
    "usage_policy", "usage_budget", "expired_at", "undo_until", "raised_pace_points", "raised_pace_until", "reset_revision",
    "reset_undo_supported", "undo_supported"]

  const LIMIT_NAMES: seq<string> := [
    "ordinary_usage_allowed", "budget", "openrouter_credits", "probe_failure", "limiting_reset", "limit", "spend_month_usd",
    "learning", "same_quota_as"]

  const READING_NAMES: seq<string> := [
    "resets_at", "until", "read_at", "reading_error", "reading_age_seconds", "credit_state", "remaining", "used_percent",
    "remaining_percent", "threshold_percent"]

  const DENIAL_NAMES: seq<string> := [
    "window_key", "severity", "denial_reason", "stop_kind", "backoff_step", "wait_id", "early_recovery_used"]

  const RESERVE_NAMES: seq<string> := [
    "cap_percent", "reserve_percent", "reserve_effective_percent", "reserve_until", "awaiting_reading"]

  const COLLECTION_NAMES: seq<string> := ["windows", "readings", "facts", "hourly_readings"]

  const FINGERPRINT_NAMES: seq<string> := ["plan", "quota_fingerprint", "quota_pool_fingerprint"]

  /** Usage, limits, resets, credits, denials and check results: absent. */
  predicate NeverTold(k: Key) {
    match k
    case HostReason | CheckResult | PendingCheck | Outcome => true
    case Other(name) =>
      name in PACE_NAMES || name in LIMIT_NAMES || name in READING_NAMES || name in DENIAL_NAMES || name in RESERVE_NAMES
    case _ => false
  }

  /** Collections: present without their rows. */
  predicate ToldEmpty(k: Key) {
    match k
    case LatestReadings | ReadinessResources => true
    case Other(name) => name in COLLECTION_NAMES
    case _ => false
  }

  /** The plan and the fingerprints: present without their text. */
  predicate ToldBlank(k: Key) {
    match k
    case Other(name) => name in FINGERPRINT_NAMES
    case _ => false
  }

  /** Figures and times the contract lets be null. */
  predicate ToldNull(k: Key) {
    match k
    case Resets | ResetPlan | RemainingFraction | LastProbeAt | LastProbeOk | CheckedAt | MeasuredUsage => true
    case _ => false
  }

  /** The members whose values an object of a hidden account does not tell. */
  predicate Withheld(m: Fields, k: Key) {
    || NeverTold(k) || ToldEmpty(k) || ToldBlank(k) || ToldNull(k)
    || k.NextAttemptAt? || k.ResetPolicy? || k.UnavailableReasons? || k.Code? || k.CostLimitSupported? || k.Routable? || k.Schedule?
    || (LatestReadings in m && k.NextCursor?)
    || (MeasuredUsage in m && (k.ReasonCodes? || k.DisplayReason? || k.State?))
    || (Routable in m && (k.Waiting? || k.Routing?))
    || (AccountId in m && k.Hosts?)
  }

  predicate HasPart(v: Json, name: string, value: Json)
    requires v.Obj?
  {
    CalendarPart(name) in v.fields && v.fields[CalendarPart(name)] == value
  }

  /** Every day of the week open, all of it. */
  predicate OpenWeek(week: Json) {
    && week.Arr? && |week.items| == 7
    && forall i :: 0 <= i < 7 ==>
         week.items[i] == Obj(map[CalendarPart("on") := Bool(true), CalendarPart("start") := Num(0.0), CalendarPart("end") := Num(24.0)])
  }

  /** Half pace at night, from ten to eight. */
  predicate DayAndNight(blocks: Json) {
    blocks.Arr? && |blocks.items| == 24 && forall h :: 0 <= h < 24 ==> blocks.items[h] == Num(if h < 8 || h >= 22 then 0.5 else 1.0)
  }

  /** The default calendar in UTC with every day open, and nothing of the owner's. */
  predicate OpenCalendar(v: Json) {
    && v.Obj? && (forall k <- v.fields :: k.CalendarPart?) && |v.fields| <= 8
    && HasPart(v, "timezone", Str("UTC")) && HasPart(v, "off_days", Str("expire")) && HasPart(v, "nights", Bool(false))
    && HasPart(v, "model", Str("daynight"))
    && HasPart(v, "night", Obj(map[CalendarPart("start") := Num(22.0), CalendarPart("end") := Num(8.0), CalendarPart("k") := Num(0.6)]))
    && HasPart(v, "shifts", Obj(map[CalendarPart("early") := Num(6.0), CalendarPart("late") := Num(14.0), CalendarPart("night") := Num(22.0),
                                    CalendarPart("k") := Arr([Num(1.0), Num(1.0), Num(0.5)])]))
    && CalendarPart("week") in v.fields && OpenWeek(v.fields[CalendarPart("week")])
    && CalendarPart("blocks") in v.fields && DayAndNight(v.fields[CalendarPart("blocks")])
  }

  predicate Says(m: Fields, k: Key) { k in m && m[k] == Bool(true) }

  /** What a withheld member may show. */
  predicate MayShow(m: Fields, k: Key, v: Json) {
    && !NeverTold(k)
    && (ToldEmpty(k) ==> v == Arr([]))
    && (ToldBlank(k) ==> v == Str(""))
    && (ToldNull(k) ==> v == Null)
    && match k
       case NextAttemptAt => MeasuredUsage in m && v == Null
       case ResetPolicy => v == Str("suggest")
       case UnavailableReasons => v == Arr(if Says(m, Available) then [] else [Str("state")])
       case Code => v == Str("state")
       case CostLimitSupported | Routable => v == Bool(false)
       case Schedule => OpenCalendar(v)
       case NextCursor => LatestReadings in m ==> v == Str("")
       case ReasonCodes => MeasuredUsage in m ==> v == Arr([Str(if Says(m, CanTry) then "available" else "unavailable")])
       case DisplayReason => MeasuredUsage in m ==> v == Str(if Says(m, CanTry) then "available" else "unavailable")
       case State => MeasuredUsage in m ==> v == Str(if Says(m, CanTry) then "unknown" else "blocked")
       case Waiting => Routable in m ==> v == Obj(map[Code := Str("state"), RunNowAllowed := Bool(false)])
       case Routing => Routable !in m
       case Hosts => AccountId !in m
       case _ => true
  }

  /** The projections that say details were redacted. */
  predicate MustMark(m: Fields) {
    (AccountId in m && Availability in m) || Routable in m || RegisteredBy in m || Schedule in m || MeasuredUsage in m
  }

  /** The members a redacted object adds to stay within its contract. */
  predicate Completed(m: Fields) {
    && (MustMark(m) ==> Says(m, DetailsRedacted))
    && (LatestReadings in m ==> NextCursor in m)
    && (MeasuredUsage in m ==> NextAttemptAt in m && ReasonCodes in m && DisplayReason in m && State in m)
    && (Routable in m ==> Waiting in m)
  }

  /** Check controls, and the result of a check somebody asked for: for those who may control the account's checks. */
  predicate Control(m: Fields, k: Key) {
    match k
    case PendingCheck | ReadinessResources | CheckResult => true
    case Outcome => RequestedAt in m && ActorPrincipalId in m && m[ActorPrincipalId] != Null
    case _ => false
  }

  // --------------------------------------------------------- event snapshots

  const CHECK_NAMES: seq<string> := ["check_id", "binding_revision", "harness", "daemon_id", "label"]

  const LINK_NAMES: seq<string> := [
    "ongoing_use_approved", "owner_person_id", "linked_at", "link_revision", "share_usage", "max_parallel_runs"]

  /** What an event tells of an account that is not shared. */
  predicate MayTell(k: Key) {
    match k
    case Id | AccountId | ActorPrincipalId | State | RegisteredBy => true
    case Other(name) => name in CHECK_NAMES || name in LINK_NAMES
    case _ => false
  }
}
