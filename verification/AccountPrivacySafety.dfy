/** What a redacted document may still show, and what it does not depend on. */
module AccountPrivacySafety {
  import opened Sharing
  import opened UuidText
  import opened Wrappers
  import opened PrivacyDocument
  import opened PrivacyMask
  import opened PrivacyPromise
  import opened AccountPrivacy
  import opened AccountPrivacyLaws

  // ------------------------------------------------------------------ safety

  /** Empty, null or a fixed neutral value, whatever the document held. */
  predicate Neutral(v: Json) {
    || v == Null || v == Str("") || v == Arr([]) || v == Bool(false)
    || v == Suggest() || v == StateCode() || v == Arr([StateCode()]) || v == StateWait() || v == NeutralSchedule()
    || v == Str("available") || v == Str("unavailable") || v == Arr([Str("available")]) || v == Arr([Str("unavailable")])
    || v == Str("unknown") || v == Str("blocked")
  }

  /** A check control the reader is given back. */
  predicate GivenBack(p: Policies, m: Fields, g: string, k: Key) {
    Hides(p.usage, g) && !Hides(p.controls, g) && k in m && Control(m, k)
  }

  /** A guard row of an account that is not shared, or of nobody. */
  ghost predicate LostRow(p: Policies, row: Json) {
    && row.Obj? && Posture in row.fields && KeepForYou in row.fields
    && forall g: string :: Governs(g, row.fields, "") ==> !(g in p.usage && p.usage[g])
  }

  /**
   * Every object of an account the reader may not see tells only what it may of
   * withheld members, but for check controls given back; host causes show only
   * for accounts whose host may be diagnosed; no guard row of a hidden account
   * is left.
   */
  ghost predicate Safe(p: Policies, v: Json, id: string) {
    match v
    case Arr(items) => forall i :: 0 <= i < |items| ==> !LostRow(p, items[i]) && Safe(p, items[i], id)
    case Obj(m) =>
      forall g: string :: Governs(g, m, id) ==>
        && (Hides(p.usage, g) ==> Completed(m))
        && forall k <- m :: (GivenBack(p, m, g, k) || Safe(p, m[k], g)) && SafeMember(p, m, g, k)
    case _ => true
  }

  predicate SafeMember(p: Policies, m: Fields, g: string, k: Key)
    requires k in m
  {
    && (Hides(p.hosts, g) ==> !k.HostReason?)
    && (Hides(p.usage, g) && Withheld(m, k) ==> GivenBack(p, m, g, k) || MayShow(m, k, m[k]))
  }

  // ------------------------------ the mask's lists and terms are the promise's

  lemma {:induction false} RemovedNames(name: string)
    ensures name in REMOVED <==>
            name in PACE_NAMES || name in LIMIT_NAMES || name in READING_NAMES || name in DENIAL_NAMES || name in RESERVE_NAMES
  {
    assert REMOVED == PACE_NAMES + LIMIT_NAMES + READING_NAMES + DENIAL_NAMES + RESERVE_NAMES;
  }

  // One name at a time: comparing it with the whole list is the costly part.

  lemma {:induction false} WindowsStay()
    ensures "windows" !in REMOVED
  {}

  lemma {:induction false} FactsStay()
    ensures "facts" !in REMOVED
  {}

  lemma {:induction false} ReadingsStay()
    ensures "readings" !in REMOVED
  {}

  lemma {:induction false} HourlyReadingsStay()
    ensures "hourly_readings" !in REMOVED
  {}

  lemma {:induction false} PlanStays()
    ensures "plan" !in REMOVED
  {}

  lemma {:induction false} FingerprintStays()
    ensures "quota_fingerprint" !in REMOVED
  {}

  lemma {:induction false} PoolFingerprintStays()
    ensures "quota_pool_fingerprint" !in REMOVED
  {}

  lemma {:induction false} ListsAreDisjoint(name: string)
    ensures name in COLLECTION_NAMES || name in FINGERPRINT_NAMES ==> name !in REMOVED
    ensures name in COLLECTION_NAMES ==> name !in FINGERPRINT_NAMES
  {
    hide REMOVED;
    WindowsStay();
    FactsStay();
    ReadingsStay();
    HourlyReadingsStay();
    PlanStays();
    FingerprintStays();
    PoolFingerprintStays();
  }

  lemma {:induction false} SameShortLists()
    ensures BLANKED == FINGERPRINT_NAMES && EMPTIED == COLLECTION_NAMES
  {}

  lemma {:induction false} NamesAsPromised(name: string)
    ensures var k := Other(name);
            && (Treat(k).Removed? <==> NeverTold(k)) && (Treat(k).Emptied? <==> ToldEmpty(k)) && (Treat(k).Blanked? <==> ToldBlank(k))
  {
    hide REMOVED, BLANKED, EMPTIED, PACE_NAMES, LIMIT_NAMES, READING_NAMES, DENIAL_NAMES, RESERVE_NAMES, COLLECTION_NAMES, FINGERPRINT_NAMES;
    RemovedNames(name);
    ListsAreDisjoint(name);
    SameShortLists();
  }

  lemma {:induction false} MembersAsPromised(k: Key)
    requires !k.Other?
    ensures Treat(k).Removed? <==> NeverTold(k) || k.NextAttemptAt?
    ensures Treat(k).Emptied? <==> ToldEmpty(k)
    ensures Treat(k).Blanked? <==> ToldBlank(k)
  {
    hide TreatName, PACE_NAMES, LIMIT_NAMES, READING_NAMES, DENIAL_NAMES, RESERVE_NAMES, COLLECTION_NAMES, FINGERPRINT_NAMES;
  }

  /** The mask treats each member as promised. */
  lemma {:induction false} ListsAsPromised(k: Key)
    ensures Treat(k).Removed? <==> NeverTold(k) || k.NextAttemptAt?
    ensures Treat(k).Emptied? <==> ToldEmpty(k)
    ensures Treat(k).Blanked? <==> ToldBlank(k)
    ensures Nulled(k) <==> ToldNull(k)
  {
    assert Nulled(k) <==> ToldNull(k);
    hide *;
    if k.Other? { NamesAsPromised(k.name); } else { MembersAsPromised(k); }
  }

  lemma {:induction false} TermsAgree(p: Policies, m: Fields, g: string, k: Key)
    ensures Denied(p, g) <==> Hides(p.usage, g)
    ensures HostHidden(p, g) <==> Hides(p.hosts, g)
    ensures IsSaved(p, m, g, k) <==> GivenBack(p, m, g, k)
  {}

  lemma {:induction false} RowsAgree(p: Policies, row: Json)
    ensures WithheldRow(p, row) <==> LostRow(p, row)
  {
    if row.Obj? {
      var g := Governor(row.fields, "");
      forall x: string ensures Governs(x, row.fields, "") <==> x == g { GovernorGoverns(row.fields, "", x); }
      hide Governs, AccountID;
    }
  }

  /** Trees without any name the redaction treats. */
  predicate Untouched(v: Json) {
    match v
    case Arr(items) => forall i :: 0 <= i < |items| ==> Untouched(items[i])
    case Obj(m) => forall k <- m :: k.CalendarPart? && Untouched(m[k])
    case _ => true
  }

  lemma {:induction false} UntouchedStays(p: Policies, v: Json, id: string, levels: nat)
    requires Untouched(v)
    ensures Walked(p, v, id, levels) == v
    decreases levels, 0
  {
    if levels > 0 {
      match v
      case Arr(items) => UntouchedItems(p, items, id, levels - 1);
      case Obj(m) => UntouchedFields(p, m, Governor(m, id), levels - 1);
      case _ =>
    }
    hide WalkedItems, WalkedFields;
  }

  lemma {:induction false} UntouchedItems(p: Policies, items: seq<Json>, id: string, levels: nat)
    requires forall i :: 0 <= i < |items| ==> Untouched(items[i])
    ensures WalkedItems(p, items, id, levels) == items
    decreases levels, |items| + 1
  {
    if items != [] {
      assert items[0].Obj? ==> Posture !in items[0].fields;
      UntouchedItems(p, items[1..], id, levels);
      UntouchedStays(p, items[0], id, levels);
      hide Walked, Untouched;
    }
  }

  lemma {:induction false} UntouchedFields(p: Policies, m: Fields, g: string, levels: nat)
    requires forall k <- m :: k.CalendarPart? && Untouched(m[k])
    ensures WalkedFields(p, m, g, levels) == m
    decreases levels, 1
  {
    forall k
      ensures Lookup(WalkedFields(p, m, g, levels), k) == Lookup(m, k)
    {
      hide *;
      Present(m, k);
      WalkedFieldAt(p, m, g, levels, k);
      UntouchedMember(p, m, g, k);
      if k in m { UntouchedStays(p, m[k], g, levels); }
    }
    SameLookups(WalkedFields(p, m, g, levels), m);
    hide WalkedFields;
  }

  lemma {:induction false} UntouchedMember(p: Policies, m: Fields, g: string, k: Key)
    requires forall k <- m :: k.CalendarPart?
    ensures FieldEntered(p, m, g, k) == Lookup(m, k) && !IsSaved(p, m, g, k)
  {
    var o := Opened(p, m, g);
    assert o == m;
    MaskedPresence(m, k);
    CalendarFate(m, k);
    hide FateOf, MaskedField;
  }

  lemma {:induction false} CalendarFate(m: Fields, k: Key)
    requires forall k <- m :: k.CalendarPart?
    ensures FateOf(m, k) == if k in m then Kept else Gone
  {
    assert LatestReadings !in m && MeasuredUsage !in m && Routable !in m && AccountId !in m && RegisteredBy !in m && Schedule !in m;
    assert k.CalendarPart? ==> Treat(k).Unlisted? && !Nulled(k);
    hide Treat, Nulled, Reason, BareState, Reasons, StateWait, NeutralSchedule, StateCode, Suggest;
  }

  lemma {:induction false} ScheduleIsUntouched()
    ensures Untouched(NeutralSchedule())
  {}

  // ---------------------------------------------------- constants stay constant

  lemma {:induction false} WaitStays(p: Policies, g: string, levels: nat)
    requires Denied(p, g)
    ensures Walked(p, StateWait(), g, levels) == StateWait()
  {
    hide *;
    WaitIsObject();
    var m := StateWait().fields;
    if levels > 0 {
      WaitGovernor(m, g);
      WaitFields(p, m, g, levels - 1);
      WalkedObject(p, m, g, levels);
    } else {
      NoLevels(p, StateWait(), g);
    }
  }

  lemma {:induction false} WaitIsObject()
    ensures StateWait().Obj?
  {}

  lemma {:induction false} NoLevels(p: Policies, v: Json, id: string)
    ensures Walked(p, v, id, 0) == v
  {}

  lemma {:induction false} WalkedObject(p: Policies, m: Fields, id: string, levels: nat)
    requires levels > 0
    ensures Walked(p, Obj(m), id, levels) == Obj(WalkedFields(p, m, Governor(m, id), levels - 1))
  {}

  lemma {:induction false} WaitFields(p: Policies, m: Fields, g: string, levels: nat)
    requires Denied(p, g) && m == StateWait().fields
    ensures WalkedFields(p, m, g, levels) == m
  {
    hide *;
    forall k
      ensures Lookup(WalkedFields(p, m, g, levels), k) == Lookup(m, k)
    {
      WaitField(p, m, g, k);
      Present(m, k);
      WalkedFieldAt(p, m, g, levels, k);
      if k in m {
        WaitLeaf(m, k);
        KindStays(p, m[k], g, levels);
      }
    }
    SameLookups(WalkedFields(p, m, g, levels), m);
  }

  lemma {:induction false} WaitGovernor(m: Fields, g: string)
    requires m == StateWait().fields
    ensures Governor(m, g) == g
  {}

  lemma {:induction false} WaitLeaf(m: Fields, k: Key)
    requires m == StateWait().fields && k in m
    ensures !m[k].Arr? && !m[k].Obj?
  {}

  lemma {:induction false} WaitField(p: Policies, m: Fields, g: string, k: Key)
    requires Denied(p, g) && m == StateWait().fields
    ensures FieldEntered(p, m, g, k) == Lookup(m, k) && !IsSaved(p, m, g, k)
  {
    hide *;
    WaitMembers(p, m, g, k);
    OpenedWithoutHost(p, m, g);
    DeniedField(p, m, g, k);
    MaskedPresence(m, k);
    WaitFate(m, k);
    Present(m, k);
  }

  lemma {:induction false} WaitMembers(p: Policies, m: Fields, g: string, k: Key)
    requires m == StateWait().fields
    ensures HostReason !in m && !IsSaved(p, m, g, k)
    ensures k in m <==> k.Code? || k.RunNowAllowed?
    ensures k.Code? ==> m[k] == StateCode()
  {}

  lemma {:induction false} WaitFate(m: Fields, k: Key)
    requires m == StateWait().fields
    ensures FateOf(m, k) == if k !in m then Gone else if k.Code? then Shows(StateCode()) else Kept
  {
    assert forall key <- m :: key.Code? || key.RunNowAllowed?;
    assert LatestReadings !in m && MeasuredUsage !in m && Routable !in m && AccountId !in m && RegisteredBy !in m && Schedule !in m;
    hide StateWait, NeutralSchedule, Reason, BareState, Reasons, StateCode, Suggest;
  }

  /** What the mask writes is neutral, but for the mark that details are withheld. */
  lemma {:induction false} ShownIsNeutral(m: Fields, k: Key)
    requires FateOf(m, k).Shows?
    ensures Neutral(FateOf(m, k).v) || (k.DetailsRedacted? && FateOf(m, k).v == Bool(true))
  {
    NamedMembers(k);
    hide Treat, StateWait, NeutralSchedule, StateCode, Suggest, Nulled, Marked;
  }

  lemma {:induction false} NamedMembers(k: Key)
    ensures Treat(k).Removed? ==> !(k.DetailsRedacted? || k.NextCursor? || k.ReasonCodes? || k.DisplayReason? || k.State? || k.Waiting?)
    ensures Treat(NextAttemptAt).Removed?
  {}

  /** And the walk leaves it alone. */
  lemma {:induction false} ShownStays(p: Policies, m: Fields, g: string, k: Key, levels: nat)
    requires Denied(p, g) && FateOf(m, k).Shows?
    ensures Walked(p, FateOf(m, k).v, g, levels) == FateOf(m, k).v
  {
    ShownIsNeutral(m, k);
    NeutralStays(p, FateOf(m, k).v, g, levels);
    hide FateOf, Neutral;
  }

  lemma {:induction false} NeutralStays(p: Policies, v: Json, g: string, levels: nat)
    requires Denied(p, g) && (Neutral(v) || v == Bool(true))
    ensures Walked(p, v, g, levels) == v
  {
    hide *;
    NeutralKinds(v);
    WaitStays(p, g, levels);
    ScheduleIsUntouched();
    UntouchedStays(p, NeutralSchedule(), g, levels);
    if v.Arr? {
      TextsUnchanged(p, v.items, g, levels);
    } else if !v.Obj? {
      KindStays(p, v, g, levels);
    }
  }

  lemma {:induction false} NeutralKinds(v: Json)
    requires Neutral(v) || v == Bool(true)
    ensures v.Obj? ==> v == StateWait() || v == NeutralSchedule()
    ensures v.Arr? ==> forall i :: 0 <= i < |v.items| ==> v.items[i].Str?
  {}

  // -------------------------------------------------------- the main theorem

  lemma {:induction false} WithheldAlike(m: Fields, n: Fields, k: Key)
    requires SameTriggers(m, n)
    ensures Withheld(m, k) <==> Withheld(n, k)
  {
    SameTexts(m, n);
    hide SameTriggers, NeverTold, ToldEmpty, ToldBlank, ToldNull;
  }

  lemma {:induction false} WithheldIsNotKept(m: Fields, k: Key)
    requires Withheld(m, k)
    ensures !FateOf(m, k).Kept?
  {
    ListsAsPromised(k);
    hide NeverTold, ToldEmpty, ToldBlank, ToldNull, Treat, Nulled, Marked, StateWait, NeutralSchedule, StateCode, Suggest, Reason,
      BareState, Reasons;
  }

  /** What the mask shows is what may be shown. */
  lemma {:induction false} FateMayShow(m: Fields, k: Key)
    requires Withheld(m, k) && FateOf(m, k).Shows?
    ensures MayShow(m, k, FateOf(m, k).v)
  {
    ListsAsPromised(k);
    PromisedKinds(k);
    NeutralIsOpen();
    hide NeverTold, ToldEmpty, ToldBlank, ToldNull, Treat, Nulled, NeutralSchedule, OpenCalendar, Marked;
  }

  lemma {:induction false} PromisedKinds(k: Key)
    ensures NeverTold(k) || ToldEmpty(k) || ToldBlank(k) || ToldNull(k) ==>
              !(k.NextAttemptAt? || k.ResetPolicy? || k.UnavailableReasons? || k.Code? || k.CostLimitSupported? || k.Routable?
                || k.Schedule? || k.NextCursor? || k.ReasonCodes? || k.DisplayReason? || k.State? || k.Waiting? || k.Routing?
                || k.Hosts? || k.DetailsRedacted?)
    ensures ToldNull(k) ==> !NeverTold(k) && !ToldEmpty(k) && !ToldBlank(k)
  {}

  lemma {:induction false} NeutralIsOpen()
    ensures OpenCalendar(NeutralSchedule())
  {}

  lemma {:induction false} MayShowAlike(m: Fields, n: Fields, k: Key, v: Json)
    requires SameTriggers(m, n)
    ensures MayShow(m, k, v) <==> MayShow(n, k, v)
  {
    SameTexts(m, n);
    assert Says(m, CanTry) == Says(n, CanTry) && Says(m, Available) == Says(n, Available);
    hide SameTriggers, NeverTold, ToldEmpty, ToldBlank, ToldNull, OpenCalendar;
  }

  /** What a withheld member of a denied object shows after the walk. */
  lemma {:induction false} WithheldShows(p: Policies, m: Fields, g: string, levels: nat, k: Key)
    requires var n := WalkedFields(p, m, g, levels);
             Denied(p, g) && k in n && !IsSaved(p, m, g, k) && Withheld(n, k)
    ensures var n := WalkedFields(p, m, g, levels);
            MayShow(n, k, n[k])
  {
    hide *;
    var n := WalkedFields(p, m, g, levels);
    var o := Opened(p, m, g);
    HostIsOut(p, m, g);
    HostIsNotSaved(p, m, g);
    WalkedFieldAt(p, m, g, levels, HostReason);
    Present(n, HostReason);
    OpenedWithoutHost(p, n, g);
    TriggersSurvive(p, m, g, levels);
    WithheldAlike(o, n, k);
    WithheldIsNotKept(o, k);
    WalkedFieldAt(p, m, g, levels, k);
    DeniedField(p, m, g, k);
    MaskedPresence(o, k);
    Present(n, k);
    ShownStays(p, o, g, k, levels);
    FateMayShow(o, k);
    MayShowAlike(o, n, k, n[k]);
  }

  // ------------------------------------------------ what a redacted object adds

  lemma {:induction false} AddedFate(m: Fields)
    ensures MustMark(m) ==> FateOf(m, DetailsRedacted) == Shows(Bool(true))
    ensures LatestReadings in m ==> FateOf(m, NextCursor).Shows?
    ensures MeasuredUsage in m ==>
              FateOf(m, NextAttemptAt).Shows? && FateOf(m, ReasonCodes).Shows? && FateOf(m, DisplayReason).Shows? && FateOf(m, State).Shows?
    ensures Routable in m ==> FateOf(m, Waiting).Shows?
  {
    hide Treat, Nulled, StateWait, NeutralSchedule, StateCode, Suggest, Reason, BareState, Reasons;
  }

  /** A member the mask adds is there after the walk, as the mask wrote it. */
  lemma {:induction false} AddedStays(p: Policies, m: Fields, g: string, levels: nat, k: Key)
    requires Denied(p, g) && !Control(m, k) && FateOf(Opened(p, m, g), k).Shows?
    ensures var n := WalkedFields(p, m, g, levels);
            k in n && n[k] == FateOf(Opened(p, m, g), k).v
  {
    hide *;
    var o := Opened(p, m, g);
    NotGivenBack(p, m, g, k);
    WalkedFieldAt(p, m, g, levels, k);
    DeniedField(p, m, g, k);
    MaskedPresence(o, k);
    ShownStays(p, o, g, k, levels);
    Present(WalkedFields(p, m, g, levels), k);
  }

  lemma {:induction false} NotGivenBack(p: Policies, m: Fields, g: string, k: Key)
    requires !Control(m, k)
    ensures !IsSaved(p, m, g, k)
  {}

  lemma {:induction false} NotControls(m: Fields)
    ensures !Control(m, DetailsRedacted) && !Control(m, NextCursor) && !Control(m, NextAttemptAt) && !Control(m, ReasonCodes)
    ensures !Control(m, DisplayReason) && !Control(m, State) && !Control(m, Waiting)
  {}

  lemma {:induction false} MarksAlike(m: Fields, n: Fields)
    requires SameTriggers(m, n)
    ensures MustMark(m) <==> MustMark(n)
    ensures (LatestReadings in m <==> LatestReadings in n) && (MeasuredUsage in m <==> MeasuredUsage in n) && (Routable in m <==> Routable in n)
  {
    SameTexts(m, n);
    assert Triggering(AccountId) && Triggering(Availability) && Triggering(RegisteredBy) && Triggering(Schedule);
  }

  lemma {:induction false} RedactedIsCompleted(p: Policies, m: Fields, g: string, levels: nat)
    requires Denied(p, g)
    ensures Completed(WalkedFields(p, m, g, levels))
  {
    var n := WalkedFields(p, m, g, levels);
    var o := Opened(p, m, g);
    hide WalkedFields, Opened, FateOf, Denied, MustMark, Control, SameTriggers;
    HostIsOut(p, m, g);
    HostIsNotSaved(p, m, g);
    WalkedFieldAt(p, m, g, levels, HostReason);
    Present(n, HostReason);
    OpenedWithoutHost(p, n, g);
    TriggersSurvive(p, m, g, levels);
    MarksAlike(o, n);
    AddedFate(o);
    NotControls(m);
    if MustMark(o) { AddedStays(p, m, g, levels, DetailsRedacted); }
    if LatestReadings in o { AddedStays(p, m, g, levels, NextCursor); }
    if Routable in o { AddedStays(p, m, g, levels, Waiting); }
    if MeasuredUsage in o {
      AddedStays(p, m, g, levels, NextAttemptAt);
      AddedStays(p, m, g, levels, ReasonCodes);
      AddedStays(p, m, g, levels, DisplayReason);
      AddedStays(p, m, g, levels, State);
    }
  }

  lemma {:induction false} MemberIsSafe(p: Policies, m: Fields, g: string, levels: nat, k: Key)
    requires k in WalkedFields(p, m, g, levels)
    ensures SafeMember(p, WalkedFields(p, m, g, levels), g, k)
  {
    var n := WalkedFields(p, m, g, levels);
    hide WalkedFields, Withheld, MayShow, GivenBack, IsSaved, Lookup, FieldEntered, Walked, Denied, HostHidden, Hides;
    SavedAgain(p, m, g, levels, k);
    TermsAgree(p, n, g, k);
    if HostHidden(p, g) {
      HostIsOut(p, m, g);
      HostIsNotSaved(p, m, g);
      WalkedFieldAt(p, m, g, levels, HostReason);
      Present(n, HostReason);
    }
    if Denied(p, g) && Withheld(n, k) && !IsSaved(p, m, g, k) { WithheldShows(p, m, g, levels, k); }
  }

  // ------------------------------------------------- nothing else is withheld

  lemma {:induction false} ToldIsKept(m: Fields, k: Key)
    requires !Withheld(m, k) && !(k.DetailsRedacted? && MustMark(m))
    ensures FateOf(m, k) == if k in m then Kept else Gone
  {
    ListsAsPromised(k);
    hide NeverTold, ToldEmpty, ToldBlank, ToldNull, Treat, Nulled, StateWait, NeutralSchedule, StateCode, Suggest, Reason, BareState, Reasons;
  }

  lemma {:induction false} OpenedTold(p: Policies, m: Fields, g: string, k: Key)
    requires !Withheld(m, k) && !(k.DetailsRedacted? && MustMark(m))
    ensures var o := Opened(p, m, g);
            !Withheld(o, k) && !(k.DetailsRedacted? && MustMark(o)) && Lookup(o, k) == Lookup(m, k)
  {
    assert NeverTold(HostReason);
    hide NeverTold, ToldEmpty, ToldBlank, ToldNull;
  }

  /**
   * A redacted object member by member: controls given back are as they were;
   * a member that is neither withheld nor the mark is there exactly when it was,
   * redacted in turn; host causes go alone where only the host is hidden.
   */
  lemma {:induction false} RedactedMember(p: Policies, m: Fields, id: string, g: string, levels: nat, k: Key)
    requires Governs(g, m, id)
    ensures var n := WalkedFields(p, m, Governor(m, id), levels);
            && (GivenBack(p, m, g, k) ==> k in n && n[k] == m[k])
            && (!GivenBack(p, m, g, k) && !(Hides(p.hosts, g) && k.HostReason?)
                && !(Hides(p.usage, g) && (Withheld(m, k) || (k.DetailsRedacted? && MustMark(m)))) ==>
                  (k in n <==> k in m) && (k in n ==> n[k] == Walked(p, m[k], g, levels)))
  {
    hide *;
    GovernorGoverns(m, id, g);
    var n := WalkedFields(p, m, g, levels);
    var o := Opened(p, m, g);
    TermsAgree(p, m, g, k);
    WalkedFieldAt(p, m, g, levels, k);
    Present(n, k);
    Present(m, k);
    if GivenBack(p, m, g, k) {
      GivenBackIsThere(p, m, g, k);
    } else if Hides(p.usage, g) {
      DeniedField(p, m, g, k);
      if !(Withheld(m, k) || (k.DetailsRedacted? && MustMark(m))) {
        OpenedTold(p, m, g, k);
        Present(o, k);
        ToldIsKept(o, k);
        MaskedPresence(o, k);
      }
    } else {
      OpenField(p, m, g, k);
      if !(Hides(p.hosts, g) && k.HostReason?) { OpenedHost(p, m, g, k); }
    }
  }

  lemma {:induction false} GivenBackIsThere(p: Policies, m: Fields, g: string, k: Key)
    requires GivenBack(p, m, g, k)
    ensures k in m
  {}

  lemma {:induction false} OpenedHost(p: Policies, m: Fields, g: string, k: Key)
    requires !(HostHidden(p, g) && k.HostReason?)
    ensures Lookup(Opened(p, m, g), k) == Lookup(m, k)
  {}

  /** `of` names, in order, all rows but the guard rows of accounts not shared; `out` is each of them redacted. */
  ghost predicate RowsOf(p: Policies, items: seq<Json>, id: string, levels: nat, out: seq<Json>, of: seq<nat>) {
    && |of| == |out|
    && (forall k :: 0 <= k < |of| ==> of[k] < |items| && !LostRow(p, items[of[k]]) && out[k] == Walked(p, items[of[k]], id, levels))
    && (forall j, k :: 0 <= j < k < |of| ==> of[j] < of[k])
    && (forall i :: 0 <= i < |items| && !LostRow(p, items[i]) ==> i in of)
  }

  function Raised(of: seq<nat>): (r: seq<nat>)
    ensures |r| == |of| && forall k :: 0 <= k < |of| ==> r[k] == of[k] + 1
  {
    seq(|of|, k requires 0 <= k < |of| => of[k] + 1)
  }

  lemma {:induction false} RowLost(p: Policies, items: seq<Json>, id: string, levels: nat, out: seq<Json>, of: seq<nat>, all: seq<nat>)
    requires items != [] && LostRow(p, items[0]) && RowsOf(p, items[1..], id, levels, out, of)
    requires |all| == |of| && forall k :: 0 <= k < |all| ==> all[k] == of[k] + 1
    ensures RowsOf(p, items, id, levels, out, all)
  {
    hide LostRow, Walked;
    forall k | 0 <= k < |all|
      ensures all[k] < |items| && !LostRow(p, items[all[k]]) && out[k] == Walked(p, items[all[k]], id, levels)
    {
      assert items[1..][of[k]] == items[all[k]];
    }
    forall i | 0 <= i < |items| && !LostRow(p, items[i])
      ensures i in all
    {
      assert items[1..][i - 1] == items[i];
      var k :| 0 <= k < |of| && of[k] == i - 1;
      assert all[k] == i;
    }
  }

  /** One row more in front. */
  ghost predicate InFront(out: seq<Json>, of: seq<nat>, row: Json, more: seq<Json>, all: seq<nat>) {
    && |of| == |out| && |all| == |of| + 1 && |more| == |out| + 1 && all[0] == 0 && more[0] == row
    && (forall k :: 0 < k < |all| ==> all[k] == of[k - 1] + 1) && (forall k :: 0 < k < |more| ==> more[k] == out[k - 1])
  }

  lemma {:induction false} PutInFront(out: seq<Json>, of: seq<nat>, row: Json)
    requires |of| == |out|
    ensures InFront(out, of, row, [row] + out, [0] + Raised(of))
  {}

  lemma {:induction false} RowKept(p: Policies, items: seq<Json>, id: string, levels: nat, out: seq<Json>, of: seq<nat>,
                                    more: seq<Json>, all: seq<nat>)
    requires items != [] && !LostRow(p, items[0]) && RowsOf(p, items[1..], id, levels, out, of)
    requires InFront(out, of, Walked(p, items[0], id, levels), more, all)
    ensures RowsOf(p, items, id, levels, more, all)
  {
    hide LostRow, Walked;
    forall k | 0 <= k < |all|
      ensures all[k] < |items| && !LostRow(p, items[all[k]]) && more[k] == Walked(p, items[all[k]], id, levels)
    {
      if k > 0 { assert items[1..][of[k - 1]] == items[all[k]]; }
    }
    forall i | 0 <= i < |items| && !LostRow(p, items[i])
      ensures i in all
    {
      if i > 0 {
        assert items[1..][i - 1] == items[i];
        var k :| 0 <= k < |of| && of[k] == i - 1;
        assert all[k + 1] == i;
      }
    }
  }

  /** So is every redacted array. */
  lemma {:induction false} RedactedRows(p: Policies, items: seq<Json>, id: string, levels: nat) returns (of: seq<nat>)
    ensures RowsOf(p, items, id, levels, WalkedItems(p, items, id, levels), of)
    decreases |items|
  {
    if items == [] {
      of := [];
    } else {
      var rest := RedactedRows(p, items[1..], id, levels);
      var out := WalkedItems(p, items[1..], id, levels);
      RowsAgree(p, items[0]);
      assert [] + out == out;
      assert |rest| == |out|;
      assert |Raised(rest)| == |rest| && forall k :: 0 <= k < |rest| ==> Raised(rest)[k] == rest[k] + 1;
      hide WithheldRow, LostRow, Walked, RowsOf, Raised, InFront;
      if LostRow(p, items[0]) {
        of := Raised(rest);
        RowLost(p, items, id, levels, out, rest, of);
      } else {
        of := [0] + Raised(rest);
        PutInFront(out, rest, Walked(p, items[0], id, levels));
        RowKept(p, items, id, levels, out, rest, [Walked(p, items[0], id, levels)] + out, of);
      }
    }
  }

  /**
   * Safety: in every redacted document, of every shape, each object governed by
   * a denied account (its own id, else the nearest enclosing, else the fallback)
   * shows nothing withheld.
   */
  lemma {:induction false} RedactionIsSafe(p: Policies, v: Json, id: string, levels: nat)
    requires WalkOk(p, v, id, levels)
    ensures Safe(p, Walked(p, v, id, levels), id)
    decreases levels, 0
  {
    hide WalkedFields, FieldsOk, WalkedItems, Governor, WithheldRow, GivenBack, SafeMember, Governs, Hides, Completed, LostRow;
    match v
    case Arr(items) =>
      ItemsAreSafe(p, items, id, levels - 1);
    case Obj(m) =>
      var g := Governor(m, id);
      FieldsAreSafe(p, m, g, levels - 1);
      GovernorStays(p, m, id, levels - 1);
      var n := WalkedFields(p, m, g, levels - 1);
      forall x: string ensures Governs(x, n, id) ==> x == g { GovernorGoverns(n, id, x); }
    case _ =>
  }

  lemma {:induction false} FieldsAreSafe(p: Policies, m: Fields, g: string, levels: nat)
    requires FieldsOk(p, m, g, levels)
    ensures var n := WalkedFields(p, m, g, levels);
            && (Hides(p.usage, g) ==> Completed(n))
            && forall k <- n :: (GivenBack(p, n, g, k) || Safe(p, n[k], g)) && SafeMember(p, n, g, k)
    decreases levels, 1
  {
    hide *;
    var n := WalkedFields(p, m, g, levels);
    TermsAgree(p, n, g, Id);
    if Denied(p, g) { RedactedIsCompleted(p, m, g, levels); }
    forall k | k in n
      ensures (GivenBack(p, n, g, k) || Safe(p, n[k], g)) && SafeMember(p, n, g, k)
    {
      MemberIsSafe(p, m, g, levels, k);
      TermsAgree(p, n, g, k);
      SavedAgain(p, m, g, levels, k);
      if !IsSaved(p, m, g, k) {
        WalkedFieldAt(p, m, g, levels, k);
        Present(n, k);
        EnteredAt(p, m, g, k);
        Present(Entered(p, m, g), k);
        FieldOk(p, m, g, levels);
        assert MemberOk(p, m, g, levels, k);
        var f := FieldEntered(p, m, g, k).value;
        if Inert(p, m, g, k) {
          InertIsText(p, m, g, k, levels);
          InertEntered(p, m, g, k);
          TextsAreSafe(p, f, g);
        } else {
          OkMeans(p, m, g, levels, k);
          RedactionIsSafe(p, f, g, levels);
        }
      }
    }
  }

  lemma {:induction false} OkMeans(p: Policies, m: Fields, g: string, levels: nat, k: Key)
    requires MemberOk(p, m, g, levels, k) && FieldEntered(p, m, g, k).Some? && !IsSaved(p, m, g, k) && !Inert(p, m, g, k)
    ensures WalkOk(p, FieldEntered(p, m, g, k).value, g, levels)
  {}

  lemma {:induction false} InertEntered(p: Policies, m: Fields, g: string, k: Key)
    requires Inert(p, m, g, k) && FieldEntered(p, m, g, k).Some?
    ensures var f := FieldEntered(p, m, g, k).value;
            f.Arr? && forall i :: 0 <= i < |f.items| ==> f.items[i].Str?
  {
    InertMeans(p, m, g, k);
    DeniedField(p, m, g, k);
    assert MeasuredUsage in Opened(p, m, g) <==> MeasuredUsage in m;
    InertField(Opened(p, m, g), k);
    hide FieldEntered, MaskedField, Opened;
  }

  lemma {:induction false} TextsAreSafe(p: Policies, v: Json, id: string)
    requires v.Arr? && forall i :: 0 <= i < |v.items| ==> v.items[i].Str?
    ensures Safe(p, v, id)
  {}

  lemma {:induction false} ItemsAreSafe(p: Policies, items: seq<Json>, id: string, levels: nat)
    requires forall i :: 0 <= i < |items| ==> WithheldRow(p, items[i]) || WalkOk(p, items[i], id, levels)
    ensures Safe(p, Arr(WalkedItems(p, items, id, levels)), id)
    decreases levels, |items| + 1
  {
    if items != [] {
      assert forall i :: 0 <= i < |items| - 1 ==> items[1..][i] == items[i + 1];
      ItemsAreSafe(p, items[1..], id, levels);
      var rest := WalkedItems(p, items[1..], id, levels);
      if !WithheldRow(p, items[0]) {
        RedactionIsSafe(p, items[0], id, levels);
        RowStays(p, items[0], id, levels);
        RowsAgree(p, Walked(p, items[0], id, levels));
        SafeCons(p, Walked(p, items[0], id, levels), rest, id);
      } else {
        assert [] + rest == rest;
      }
      hide Walked, WalkOk, WithheldRow, LostRow, Safe;
    }
  }

  lemma {:induction false} SafeCons(p: Policies, row: Json, rest: seq<Json>, id: string)
    requires !LostRow(p, row) && Safe(p, row, id) && Safe(p, Arr(rest), id)
    ensures Safe(p, Arr([row] + rest), id)
  {
    hide LostRow;
  }

  /**
   * `RedactWithControls`: a history of an account not shared is cut to nothing;
   * another document is redacted, or refused where it nests more than 32 deep.
   */
  lemma {:induction false} RedactedExactly(p: Policies, v: Json, fallback: string, history: bool)
    ensures var cut := history && !(fallback in p.usage && p.usage[fallback]);
            && (cut ==> Redacted(p, v, fallback, history) == Some(Arr([])))
            && (!cut ==> Redacted(p, v, fallback, history) == if WalkOk(p, v, fallback, 33) then Some(Walked(p, v, fallback, 33)) else None)
  {
    hide WalkOk, Walked;
  }

  /** What the whole call returns is safe, and redacting it again returns it unchanged. */
  lemma {:induction false} RedactedIsSafeAndStable(p: Policies, v: Json, fallback: string, history: bool)
    requires Redacted(p, v, fallback, history).Some?
    ensures var w := Redacted(p, v, fallback, history).value;
            Safe(p, w, fallback) && Redacted(p, w, fallback, history) == Some(w)
  {
    if history && !Allows(p.usage, fallback) {
      assert Safe(p, Arr([]), fallback);
    } else {
      RedactionIsSafe(p, v, fallback, MAX_LEVELS);
      WalkIsIdempotent(p, v, fallback, MAX_LEVELS);
    }
    hide Walked, WalkOk, Safe;
  }
}
