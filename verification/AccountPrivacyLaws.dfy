/** Redaction object by object, and why redacting twice is redacting once. */
module AccountPrivacyLaws {
  import opened UuidText
  import opened Wrappers
  import opened PrivacyDocument
  import opened PrivacyMask
  import opened AccountPrivacy

  // ---------------------------------------------- one object, masked again

  /** The members that decide what the mask does elsewhere. */
  ghost predicate SameTriggers(m: Fields, n: Fields) {
    && (forall k :: Triggering(k) ==> (k in n <==> k in m))
    && Yes(n, CanTry) == Yes(m, CanTry) && Yes(n, Available) == Yes(m, Available)
  }

  predicate Triggering(k: Key) {
    k.AccountId? || k.Availability? || k.Routable? || k.RegisteredBy? || k.Schedule? || k.MeasuredUsage? || k.LatestReadings?
  }

  lemma {:induction false} SameTexts(m: Fields, n: Fields)
    requires SameTriggers(m, n)
    ensures Reason(m) == Reason(n) && BareState(m) == BareState(n) && Reasons(m) == Reasons(n) && (Marked(m) <==> Marked(n))
    ensures (MeasuredUsage in m <==> MeasuredUsage in n) && (Routable in m <==> Routable in n) && (AccountId in m <==> AccountId in n)
    ensures LatestReadings in m <==> LatestReadings in n
  {
    assert forall k :: Triggering(k) ==> (k in n <==> k in m);
    assert Triggering(AccountId) && Triggering(Availability) && Triggering(Routable) && Triggering(RegisteredBy)
           && Triggering(Schedule) && Triggering(MeasuredUsage) && Triggering(LatestReadings);
  }

  /** Objects with the same triggers are treated alike. */
  lemma {:induction false} TreatedAlike(m: Fields, n: Fields, k: Key)
    requires SameTriggers(m, n)
    requires (k in n <==> k in m) || Treat(k).Removed? || (k.Hosts? && AccountId in m) || (k.Routing? && Routable in m)
    ensures FateOf(n, k) == FateOf(m, k)
  {
    SameTexts(m, n);
    hide SameTriggers, Reason, BareState, Reasons, Marked, StateWait, NeutralSchedule, StateCode, Suggest, Treat;
  }

  // ------------------------------------------------- one object, member by member

  function Opened(p: Policies, m: Fields, g: string): Fields { if HostHidden(p, g) then m - {HostReason} else m }

  /** A member once its object is entered, before it is walked. */
  function FieldEntered(p: Policies, m: Fields, g: string, k: Key): Option<Json> {
    if Denied(p, g) then MaskedField(Opened(p, m, g), k) else Lookup(Opened(p, m, g), k)
  }

  lemma {:induction false} EnteredAt(p: Policies, m: Fields, g: string, k: Key)
    ensures Lookup(Entered(p, m, g), k) == FieldEntered(p, m, g, k)
  {
    MaskAt(Opened(p, m, g), k);
    hide Mask, MaskedField;
  }

  lemma {:induction false} WalkedFieldAt(p: Policies, m: Fields, g: string, levels: nat, k: Key)
    ensures Lookup(WalkedFields(p, m, g, levels), k) ==
            if IsSaved(p, m, g, k) then Lookup(m, k)
            else match FieldEntered(p, m, g, k)
                 case None => None
                 case Some(f) => Some(Walked(p, f, g, levels))
  {
    EnteredAt(p, m, g, k);
    SavedIsPresent(p, m, g, k);
    hide Entered, FieldEntered, IsSaved, Walked;
  }

  lemma {:induction false} FieldOk(p: Policies, m: Fields, g: string, levels: nat)
    ensures FieldsOk(p, m, g, levels) <==> forall k :: MemberOk(p, m, g, levels, k)
  {
    forall k
      ensures MemberOk(p, m, g, levels, k) <==>
              (k in Entered(p, m, g) ==>
                 (IsSaved(p, m, g, k) || (if Inert(p, m, g, k) then levels > 0 else WalkOk(p, Entered(p, m, g)[k], g, levels))))
    {
      EnteredAt(p, m, g, k);
      hide Entered, FieldEntered, IsSaved, WalkOk, Inert;
    }
    hide Entered, FieldEntered, IsSaved, WalkOk, Inert, MemberOk;
  }

  ghost predicate MemberOk(p: Policies, m: Fields, g: string, levels: nat, k: Key) {
    FieldEntered(p, m, g, k).None? || IsSaved(p, m, g, k)
    || (if Inert(p, m, g, k) then levels > 0 else WalkOk(p, FieldEntered(p, m, g, k).value, g, levels))
  }

  // ------------------------------------------------------ identities survive

  lemma {:induction false} KindStays(p: Policies, v: Json, id: string, levels: nat)
    ensures v.Arr? <==> Walked(p, v, id, levels).Arr?
    ensures v.Obj? <==> Walked(p, v, id, levels).Obj?
    ensures !v.Arr? && !v.Obj? ==> Walked(p, v, id, levels) == v
  {
    hide WalkedItems, WalkedFields;
  }

  /** Members neither listed, replaced nor saved. */
  predicate Plain(k: Key) {
    k.AccountId? || k.Id? || k.RegisteredBy? || k.Posture? || k.KeepForYou? || k.RequestedAt? || k.ActorPrincipalId?
    || k.CanTry? || k.Available? || k.Availability?
  }

  lemma {:induction false} PlainMember(p: Policies, m: Fields, g: string, levels: nat, k: Key)
    requires Plain(k)
    ensures Lookup(WalkedFields(p, m, g, levels), k) ==
            if k in m then Some(Walked(p, m[k], g, levels)) else None
  {
    WalkedFieldAt(p, m, g, levels, k);
    PlainEntered(p, m, g, k);
    Present(m, k);
    hide *;
  }

  lemma {:induction false} PlainEntered(p: Policies, m: Fields, g: string, k: Key)
    requires Plain(k)
    ensures FieldEntered(p, m, g, k) == Lookup(m, k) && !IsSaved(p, m, g, k)
  {
    hide *;
    var o := Opened(p, m, g);
    PlainKind(p, m, g, k);
    OpenedAt(p, m, g, k);
    Present(o, k);
    if Denied(p, g) {
      DeniedField(p, m, g, k);
      MaskedPresence(o, k);
      PlainFate(o, k);
    } else {
      OpenField(p, m, g, k);
    }
  }

  lemma {:induction false} PlainKind(p: Policies, m: Fields, g: string, k: Key)
    requires Plain(k)
    ensures !IsSaved(p, m, g, k) && !k.HostReason?
  {}

  lemma {:induction false} OpenField(p: Policies, m: Fields, g: string, k: Key)
    requires !Denied(p, g)
    ensures FieldEntered(p, m, g, k) == Lookup(Opened(p, m, g), k)
  {}

  lemma {:induction false} PlainIsUnlisted(k: Key)
    requires Plain(k)
    ensures Treat(k).Unlisted? && !Nulled(k)
    ensures !(k.ResetPolicy? || k.UnavailableReasons? || k.Code? || k.CostLimitSupported? || k.Routable? || k.Schedule?
              || k.DetailsRedacted? || k.NextCursor? || k.ReasonCodes? || k.DisplayReason? || k.State? || k.Waiting?
              || k.Routing? || k.Hosts? || k.NextAttemptAt?)
  {}

  lemma {:induction false} PlainFate(m: Fields, k: Key)
    requires Plain(k)
    ensures FateOf(m, k) == if k in m then Kept else Gone
  {
    PlainIsUnlisted(k);
    hide Reason, BareState, Reasons, Marked, StateWait, NeutralSchedule, StateCode, Suggest, Treat, Nulled, Plain;
  }

  /** Redaction never changes whose object it is. */
  lemma {:induction false} IdentityStays(p: Policies, m: Fields, g: string, levels: nat)
    ensures var n := WalkedFields(p, m, g, levels);
            && AccountID(n) == AccountID(m) && (Guard(n) <==> Guard(m))
            && (RequestedAt in n <==> RequestedAt in m)
            && (ActorPrincipalId in n && n[ActorPrincipalId] != Null <==> ActorPrincipalId in m && m[ActorPrincipalId] != Null)
            && Yes(n, CanTry) == Yes(m, CanTry) && Yes(n, Available) == Yes(m, Available)
            && (AccountId in n <==> AccountId in m) && (RegisteredBy in n <==> RegisteredBy in m)
            && (Availability in n <==> Availability in m)
  {
    var n := WalkedFields(p, m, g, levels);
    SamePlain(p, m, g, levels, AccountId);
    SamePlain(p, m, g, levels, Id);
    SamePlain(p, m, g, levels, RegisteredBy);
    SamePlain(p, m, g, levels, Posture);
    SamePlain(p, m, g, levels, KeepForYou);
    SamePlain(p, m, g, levels, RequestedAt);
    SamePlain(p, m, g, levels, ActorPrincipalId);
    SamePlain(p, m, g, levels, CanTry);
    SamePlain(p, m, g, levels, Available);
    SamePlain(p, m, g, levels, Availability);
    hide WalkedFields, Uuid;
  }

  lemma {:induction false} SamePlain(p: Policies, m: Fields, g: string, levels: nat, k: Key)
    requires Plain(k)
    ensures var n := WalkedFields(p, m, g, levels);
            && (k in n <==> k in m)
            && (k in m ==> (m[k].Str? || n[k].Str? || m[k].Null? || n[k].Null? || m[k].Bool? || n[k].Bool? ==> n[k] == m[k]))
  {
    PlainMember(p, m, g, levels, k);
    if k in m { KindStays(p, m[k], g, levels); }
    hide Walked, WalkedFields;
  }

  // ------------------------------------------------------------- idempotence

  lemma {:induction false} OpenedAt(p: Policies, m: Fields, g: string, k: Key)
    requires !k.HostReason?
    ensures k in Opened(p, m, g) <==> k in m
    ensures Lookup(Opened(p, m, g), k) == Lookup(m, k)
    ensures Yes(Opened(p, m, g), k) == Yes(m, k)
  {}

  lemma {:induction false} DeniedField(p: Policies, m: Fields, g: string, k: Key)
    requires Denied(p, g)
    ensures FieldEntered(p, m, g, k) == MaskedField(Opened(p, m, g), k)
  {}

  lemma {:induction false} MaskedPresence(m: Fields, k: Key)
    ensures MaskedField(m, k).Some? <==> !FateOf(m, k).Gone?
    ensures FateOf(m, k).Kept? ==> k in m && MaskedField(m, k) == Some(m[k])
    ensures FateOf(m, k).Shows? ==> MaskedField(m, k) == Some(FateOf(m, k).v)
  {
    hide Reason, BareState, Reasons, Marked, StateWait, NeutralSchedule, StateCode, Suggest, Treat, Nulled;
  }

  lemma {:induction false} TriggerFate(m: Fields, k: Key)
    requires Triggering(k)
    ensures FateOf(m, k).Gone? <==> k !in m
  {
    hide Reason, BareState, Reasons, Marked, StateWait, NeutralSchedule, StateCode, Suggest;
  }

  lemma {:induction false} TriggerIsNotSaved(p: Policies, m: Fields, g: string, k: Key)
    requires Triggering(k)
    ensures !IsSaved(p, m, g, k) && !k.HostReason?
  {}

  lemma {:induction false} TriggerSurvives(p: Policies, m: Fields, g: string, levels: nat, k: Key)
    requires Denied(p, g) && Triggering(k)
    ensures k in Opened(p, WalkedFields(p, m, g, levels), g) <==> k in Opened(p, m, g)
  {
    hide *;
    var n := WalkedFields(p, m, g, levels);
    TriggerIsNotSaved(p, m, g, k);
    OpenedAt(p, m, g, k);
    OpenedAt(p, n, g, k);
    DeniedField(p, m, g, k);
    MaskedPresence(Opened(p, m, g), k);
    TriggerFate(Opened(p, m, g), k);
    WalkedFieldAt(p, m, g, levels, k);
    Present(n, k);
  }

  lemma {:induction false} TriggersAre(m: Fields, n: Fields)
    requires forall k :: Triggering(k) ==> (k in n <==> k in m)
    requires Yes(n, CanTry) == Yes(m, CanTry) && Yes(n, Available) == Yes(m, Available)
    ensures SameTriggers(m, n)
  {}

  /** The redacted object decides the same way as the original. */
  lemma {:induction false} TriggersSurvive(p: Policies, m: Fields, g: string, levels: nat)
    requires Denied(p, g)
    ensures SameTriggers(Opened(p, m, g), Opened(p, WalkedFields(p, m, g, levels), g))
  {
    hide *;
    var n := WalkedFields(p, m, g, levels);
    IdentityStays(p, m, g, levels);
    forall k | Triggering(k)
      ensures k in Opened(p, n, g) <==> k in Opened(p, m, g)
    {
      TriggerSurvives(p, m, g, levels, k);
    }
    OpenedAt(p, n, g, CanTry);
    OpenedAt(p, m, g, CanTry);
    OpenedAt(p, n, g, Available);
    OpenedAt(p, m, g, Available);
    TriggersAre(Opened(p, m, g), Opened(p, n, g));
  }

  /** The saved controls of a redacted object are those of the original. */
  lemma {:induction false} SavedAgain(p: Policies, m: Fields, g: string, levels: nat, k: Key)
    ensures var n := WalkedFields(p, m, g, levels);
            IsSaved(p, n, g, k) <==> IsSaved(p, m, g, k)
  {
    var n := WalkedFields(p, m, g, levels);
    IdentityStays(p, m, g, levels);
    WalkedFieldAt(p, m, g, levels, k);
    Present(n, k);
    Present(m, k);
    if k.PendingCheck? || k.ReadinessResources? || k.CheckResult? || k.Outcome? { SavedKind(p, m, g, k); }
    hide WalkedFields, Walked, FieldEntered, MaskedField, Lookup, Yes, AccountID, Guard;
  }

  /** A control that is not saved is gone, so it cannot be saved the next time. */
  lemma {:induction false} SavedKind(p: Policies, m: Fields, g: string, k: Key)
    requires k.PendingCheck? || k.ReadinessResources? || k.CheckResult? || k.Outcome?
    ensures Denied(p, g) && k !in m ==> FieldEntered(p, m, g, k).None?
    ensures Denied(p, g) && k.Outcome? ==> FieldEntered(p, m, g, k).None?
  {
    MaskedPresence(Opened(p, m, g), k);
    hide Reason, BareState, Reasons, Marked, StateWait, NeutralSchedule, StateCode, Suggest;
  }

  /** An object with the same triggers and exactly the members the mask leaves is treated as the original was. */
  lemma {:induction false} TreatedAgain(m: Fields, n: Fields, k: Key)
    requires SameTriggers(m, n) && (k in n <==> !FateOf(m, k).Gone?)
    ensures FateOf(n, k) == FateOf(m, k)
  {
    SameTexts(m, n);
    hide SameTriggers, Reason, BareState, Reasons, Marked, StateWait, NeutralSchedule, StateCode, Suggest, Treat, Nulled;
  }

  /** The walk of a member is stable and stays within the bound. */
  ghost predicate Stable(p: Policies, f: Json, g: string, levels: nat) {
    && Walked(p, Walked(p, f, g, levels), g, levels) == Walked(p, f, g, levels)
    && (WalkOk(p, f, g, levels) ==> WalkOk(p, Walked(p, f, g, levels), g, levels))
  }

  /** A member of a denied object the second time: blanked with the same constant, or walked again. */
  lemma {:induction false} DeniedFieldAgain(p: Policies, m: Fields, g: string, levels: nat, k: Key)
    requires Denied(p, g) && !IsSaved(p, m, g, k)
    ensures var n := WalkedFields(p, m, g, levels);
            FieldEntered(p, n, g, k) ==
            if FateOf(Opened(p, m, g), k).Kept? then Lookup(n, k) else FieldEntered(p, m, g, k)
  {
    hide *;
    var n := WalkedFields(p, m, g, levels);
    var o, q := Opened(p, m, g), Opened(p, n, g);
    TriggersSurvive(p, m, g, levels);
    WalkedFieldAt(p, m, g, levels, k);
    DeniedField(p, m, g, k);
    DeniedField(p, n, g, k);
    MaskedPresence(o, k);
    MaskedPresence(q, k);
    Present(n, k);
    Present(q, k);
    HostStaysOut(p, m, g, levels, k);
    TreatedAgain(o, q, k);
  }

  lemma {:induction false} HostStaysOut(p: Policies, m: Fields, g: string, levels: nat, k: Key)
    requires Denied(p, g) || HostHidden(p, g)
    ensures var n := WalkedFields(p, m, g, levels);
            (k in Opened(p, n, g) <==> k in n) && Lookup(Opened(p, n, g), k) == Lookup(n, k)
  {
    hide *;
    var n := WalkedFields(p, m, g, levels);
    HostIsOut(p, m, g);
    WalkedFieldAt(p, m, g, levels, HostReason);
    HostIsNotSaved(p, m, g);
    Present(n, HostReason);
    OpenedWithoutHost(p, n, g);
  }

  lemma {:induction false} HostIsNotSaved(p: Policies, m: Fields, g: string)
    ensures !IsSaved(p, m, g, HostReason)
  {}

  lemma {:induction false} OpenedWithoutHost(p: Policies, n: Fields, g: string)
    requires HostReason !in n
    ensures Opened(p, n, g) == n
  {}

  lemma {:induction false} HostIsOut(p: Policies, m: Fields, g: string)
    requires Denied(p, g) || HostHidden(p, g)
    ensures FieldEntered(p, m, g, HostReason).None?
  {
    if Denied(p, g) {
      var o := Opened(p, m, g);
      MaskedPresence(o, HostReason);
      assert Treat(HostReason).Removed?;
      hide Marked, Treat, Nulled;
    }
  }

  lemma {:induction false} FieldAgain(p: Policies, m: Fields, g: string, levels: nat, k: Key)
    requires FieldEntered(p, m, g, k).Some? ==> Stable(p, FieldEntered(p, m, g, k).value, g, levels)
    ensures var n := WalkedFields(p, m, g, levels);
            && Lookup(WalkedFields(p, n, g, levels), k) == Lookup(n, k)
            && (MemberOk(p, m, g, levels, k) ==> MemberOk(p, n, g, levels, k))
  {
    var n := WalkedFields(p, m, g, levels);
    hide WalkedFields, FieldEntered, FateOf, Opened, Walked, WalkOk, IsSaved, Denied, HostHidden, Lookup, MaskedField;
    WalkedFieldAt(p, m, g, levels, k);
    WalkedFieldAt(p, n, g, levels, k);
    SavedAgain(p, m, g, levels, k);
    InertAgain(p, m, g, levels, k);
    if !IsSaved(p, m, g, k) {
      if Denied(p, g) {
        DeniedFieldAgain(p, m, g, levels, k);
        DeniedField(p, m, g, k);
        MaskedPresence(Opened(p, m, g), k);
      } else {
        OpenFieldAgain(p, m, g, levels, k);
      }
    }
  }

  lemma {:induction false} InertAgain(p: Policies, m: Fields, g: string, levels: nat, k: Key)
    ensures var n := WalkedFields(p, m, g, levels);
            Inert(p, n, g, k) <==> Inert(p, m, g, k)
    ensures Inert(p, m, g, k) ==> !FateOf(Opened(p, m, g), k).Kept?
  {
    hide *;
    var n := WalkedFields(p, m, g, levels);
    InertMeans(p, m, g, k);
    InertMeans(p, n, g, k);
    if Denied(p, g) {
      MeasuredTriggers();
      TriggerSurvives(p, m, g, levels, MeasuredUsage);
      OpenedAt(p, m, g, MeasuredUsage);
      OpenedAt(p, n, g, MeasuredUsage);
      if Inert(p, m, g, k) { InertFate(Opened(p, m, g), k); }
    }
  }

  lemma {:induction false} MeasuredTriggers()
    ensures Triggering(MeasuredUsage)
  {}

  lemma {:induction false} InertMeans(p: Policies, m: Fields, g: string, k: Key)
    ensures Inert(p, m, g, k) <==> Denied(p, g) && (k.UnavailableReasons? || (k.ReasonCodes? && MeasuredUsage in m))
  {}

  lemma {:induction false} InertFate(m: Fields, k: Key)
    requires k.UnavailableReasons? || (k.ReasonCodes? && MeasuredUsage in m)
    ensures !FateOf(m, k).Kept?
  {
    hide Reason, BareState, Reasons, Marked, StateWait, NeutralSchedule, StateCode, Suggest, Treat, Nulled;
  }

  lemma {:induction false} OpenFieldAgain(p: Policies, m: Fields, g: string, levels: nat, k: Key)
    requires !Denied(p, g)
    ensures var n := WalkedFields(p, m, g, levels);
            FieldEntered(p, n, g, k) == Lookup(n, k)
  {
    var n := WalkedFields(p, m, g, levels);
    OpenField(p, n, g, k);
    if k.HostReason? {
      if HostHidden(p, g) { HostStaysOut(p, m, g, levels, k); }
    } else {
      OpenedAt(p, n, g, k);
    }
    hide WalkedFields, FieldEntered;
  }

  /**
   * Redacting again changes nothing, and a document within the bound stays
   * within it.
   */
  lemma {:induction false} WalkIsIdempotent(p: Policies, v: Json, id: string, levels: nat)
    ensures Stable(p, v, id, levels)
    decreases levels, 0
  {
    hide WalkedFields, FieldsOk, WalkedItems, Governor, WithheldRow;
    if levels > 0 {
      match v
      case Arr(items) => ItemsAgain(p, items, id, levels - 1);
      case Obj(m) =>
        FieldsAgain(p, m, Governor(m, id), levels - 1);
        GovernorStays(p, m, id, levels - 1);
      case _ =>
    }
  }

  lemma {:induction false} GovernorStays(p: Policies, m: Fields, id: string, levels: nat)
    ensures Governor(WalkedFields(p, m, Governor(m, id), levels), id) == Governor(m, id)
  {
    IdentityStays(p, m, Governor(m, id), levels);
    hide WalkedFields, AccountID;
  }

  lemma {:induction false} FieldsAgain(p: Policies, m: Fields, g: string, levels: nat)
    ensures var n := WalkedFields(p, m, g, levels);
            && WalkedFields(p, n, g, levels) == n
            && (FieldsOk(p, m, g, levels) ==> FieldsOk(p, n, g, levels))
    decreases levels, 1
  {
    var n := WalkedFields(p, m, g, levels);
    hide *;
    forall k
      ensures Lookup(WalkedFields(p, n, g, levels), k) == Lookup(n, k)
      ensures MemberOk(p, m, g, levels, k) ==> MemberOk(p, n, g, levels, k)
    {
      if FieldEntered(p, m, g, k).Some? { WalkIsIdempotent(p, FieldEntered(p, m, g, k).value, g, levels); }
      FieldAgain(p, m, g, levels, k);
    }
    SameLookups(WalkedFields(p, n, g, levels), n);
    FieldOk(p, m, g, levels);
    FieldOk(p, n, g, levels);
  }

  lemma {:induction false} ItemsAgain(p: Policies, items: seq<Json>, id: string, levels: nat)
    ensures var out := WalkedItems(p, items, id, levels);
            && WalkedItems(p, out, id, levels) == out
            && ((forall i :: 0 <= i < |items| ==> WithheldRow(p, items[i]) || WalkOk(p, items[i], id, levels)) ==>
                forall i :: 0 <= i < |out| ==> WithheldRow(p, out[i]) || WalkOk(p, out[i], id, levels))
    decreases levels, |items| + 1
  {
    if items != [] {
      var out := WalkedItems(p, items, id, levels);
      var rest := WalkedItems(p, items[1..], id, levels);
      ItemsAgain(p, items[1..], id, levels);
      if WithheldRow(p, items[0]) {
        assert out == rest;
        assert forall i :: 0 <= i < |items| - 1 ==> items[1..][i] == items[i + 1];
      } else {
        var head := Walked(p, items[0], id, levels);
        assert out == [head] + rest && out[0] == head && out[1..] == rest;
        WalkIsIdempotent(p, items[0], id, levels);
        RowStays(p, items[0], id, levels);
        assert forall i :: 0 <= i < |items| - 1 ==> items[1..][i] == items[i + 1];
        assert forall i :: 0 < i < |out| ==> out[i] == rest[i - 1];
      }
      hide Walked, WalkOk, WithheldRow;
    }
  }

  lemma {:induction false} RowStays(p: Policies, row: Json, id: string, levels: nat)
    ensures WithheldRow(p, Walked(p, row, id, levels)) <==> WithheldRow(p, row)
  {
    if levels > 0 {
      match row
      case Obj(m) => IdentityStays(p, m, Governor(m, id), levels - 1);
      case _ =>
    }
    hide WalkedFields, WalkedItems, AccountID, Guard;
  }
}
