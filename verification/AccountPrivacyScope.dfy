/**
 * What redaction depends on: only the policies of the ids a document names, and
 * nothing it withholds.
 */
module AccountPrivacyScope {
  import opened Sharing
  import opened Wrappers
  import opened PrivacyDocument
  import opened PrivacyMask
  import opened PrivacyPromise
  import opened AccountPrivacy
  import opened AccountPrivacyLaws
  import opened AccountPrivacySafety

  // ------------------------------------------------- allowed documents pass

  /** Every guard row of a list says whose it is. */
  predicate GuardsNamed(v: Json) {
    match v
    case Arr(items) =>
      forall i :: 0 <= i < |items| ==>
        GuardsNamed(items[i]) && (items[i].Obj? && Guard(items[i].fields) ==> AccountID(items[i].fields) != "")
    case Obj(m) => forall k <- m :: GuardsNamed(m[k])
    case _ => true
  }

  ghost predicate AllAllowed(p: Policies, ids: set<string>) {
    forall id <- ids :: id != "" ==> Allows(p.usage, id) && Allows(p.hosts, id)
  }

  /**
   * A document whose ids, each guard row's included, are all allowed for usage
   * and host diagnostics comes back unchanged.
   */
  lemma {:induction false} AllowedIsUnchanged(p: Policies, v: Json, id: string, levels: nat)
    requires AllAllowed(p, Named(v) + {id}) && GuardsNamed(v)
    ensures Walked(p, v, id, levels) == v
    ensures WalkOk(p, v, id, levels) <==> Shallow(v, levels)
    decreases levels, 0
  {
    if levels > 0 {
      match v
      case Arr(items) => AllowedItems(p, items, id, levels - 1);
      case Obj(m) => AllowedFields(p, m, id, levels - 1);
      case _ =>
    }
    hide WalkedItems, WalkedFields, Named, GuardsNamed, FieldsOk, Governor, WithheldRow;
  }

  /**
   * The whole call: such a document comes back as it is, or is refused beyond
   * the bound; only a history without an allowed account of its own is cut.
   */
  lemma {:induction false} AllowedCallIsUnchanged(p: Policies, v: Json, fallback: string, history: bool)
    requires AllAllowed(p, Named(v) + {fallback}) && GuardsNamed(v)
    ensures Redacted(p, v, fallback, history) ==
            if history && !Allows(p.usage, fallback) then Some(Arr([]))
            else if Shallow(v, MAX_LEVELS) then Some(v) else None
    ensures fallback != "" ==> Redacted(p, v, fallback, history) == if Shallow(v, MAX_LEVELS) then Some(v) else None
  {
    AllowedIsUnchanged(p, v, fallback, MAX_LEVELS);
    assert fallback in Named(v) + {fallback};
    hide Named, GuardsNamed, Walked, WalkOk, Shallow;
  }

  lemma {:induction false} ItemNames(items: seq<Json>, i: nat)
    requires i < |items|
    ensures Named(items[i]) <= Named(Arr(items))
  {
    assert forall id <- Named(items[i]) :: id in NamedItems(items, |items|);
    hide AccountID;
  }

  lemma {:induction false} FieldNames(m: Fields, k: Key)
    requires k in m
    ensures Named(m[k]) <= Named(Obj(m)) && OwnID(m) <= Named(Obj(m))
  {
    assert forall id <- Named(m[k]) :: id in NamedFields(m, m.Keys);
    hide AccountID;
  }

  lemma {:induction false} GuardItems(items: seq<Json>, i: nat)
    requires GuardsNamed(Arr(items)) && i < |items|
    ensures GuardsNamed(items[i]) && (items[i].Obj? && Guard(items[i].fields) ==> AccountID(items[i].fields) != "")
  {}

  lemma {:induction false} GuardFields(m: Fields, k: Key)
    requires GuardsNamed(Obj(m)) && k in m
    ensures GuardsNamed(m[k])
  {}

  /** An identified guard row of an allowed account stays. */
  lemma {:induction false} AllowedRow(p: Policies, row: Json, id: string)
    requires AllAllowed(p, Named(row) + {id}) && (row.Obj? && Guard(row.fields) ==> AccountID(row.fields) != "")
    ensures !WithheldRow(p, row)
  {
    if row.Obj? && Guard(row.fields) {
      assert AccountID(row.fields) in OwnID(row.fields);
      assert AccountID(row.fields) in Named(row) + {id};
    }
  }

  lemma {:induction false} AllowedItems(p: Policies, items: seq<Json>, id: string, levels: nat)
    requires AllAllowed(p, Named(Arr(items)) + {id}) && GuardsNamed(Arr(items))
    ensures WalkedItems(p, items, id, levels) == items
    ensures forall i :: 0 <= i < |items| ==>
              !WithheldRow(p, items[i]) && (WalkOk(p, items[i], id, levels) <==> Shallow(items[i], levels))
    decreases levels, 1
  {
    hide *;
    forall i | 0 <= i < |items|
      ensures !WithheldRow(p, items[i]) && Walked(p, items[i], id, levels) == items[i]
      ensures WalkOk(p, items[i], id, levels) <==> Shallow(items[i], levels)
    {
      ItemNames(items, i);
      GuardItems(items, i);
      FewerAllowed(p, Named(items[i]) + {id}, Named(Arr(items)) + {id});
      AllowedRow(p, items[i], id);
      AllowedIsUnchanged(p, items[i], id, levels);
    }
    KeptItems(p, items, id, levels);
  }

  lemma {:induction false} FewerAllowed(p: Policies, a: set<string>, b: set<string>)
    requires a <= b && AllAllowed(p, b)
    ensures AllAllowed(p, a)
  {}

  lemma {:induction false} KeptItems(p: Policies, items: seq<Json>, id: string, levels: nat)
    requires forall i :: 0 <= i < |items| ==> !WithheldRow(p, items[i]) && Walked(p, items[i], id, levels) == items[i]
    ensures WalkedItems(p, items, id, levels) == items
  {
    if items != [] {
      assert forall i :: 0 <= i < |items| - 1 ==> items[1..][i] == items[i + 1];
      KeptItems(p, items[1..], id, levels);
      hide WithheldRow, Walked;
    }
  }

  /** An object of an allowed account is entered as it is. */
  lemma {:induction false} AllowedObject(p: Policies, m: Fields, id: string, k: Key)
    requires AllAllowed(p, Named(Obj(m)) + {id})
    ensures var g := Governor(m, id);
            FieldEntered(p, m, g, k) == Lookup(m, k) && !IsSaved(p, m, g, k) && !Inert(p, m, g, k)
  {
    var g := Governor(m, id);
    assert g in Named(Obj(m)) + {id};
    assert !Denied(p, g) && !HostHidden(p, g);
    hide Named, AccountID, MaskedField;
  }

  lemma {:induction false} AllowedFields(p: Policies, m: Fields, id: string, levels: nat)
    requires AllAllowed(p, Named(Obj(m)) + {id}) && GuardsNamed(Obj(m))
    ensures WalkedFields(p, m, Governor(m, id), levels) == m
    ensures FieldsOk(p, m, Governor(m, id), levels) <==> forall k <- m :: Shallow(m[k], levels)
    decreases levels, 1
  {
    hide *;
    var g := Governor(m, id);
    forall k
      ensures Lookup(WalkedFields(p, m, g, levels), k) == Lookup(m, k)
      ensures MemberOk(p, m, g, levels, k) <==> k !in m || Shallow(m[k], levels)
    {
      AllowedObject(p, m, id, k);
      WalkedFieldAt(p, m, g, levels, k);
      Present(m, k);
      OpenMemberOk(p, m, g, levels, k);
      if k in m {
        FieldNames(m, k);
        GuardFields(m, k);
        GovernorNamed(m, id);
        FewerAllowed(p, Named(m[k]) + {g}, Named(Obj(m)) + {id});
        AllowedIsUnchanged(p, m[k], g, levels);
      }
    }
    SameLookups(WalkedFields(p, m, g, levels), m);
    FieldOk(p, m, g, levels);
  }

  lemma {:induction false} GovernorNamed(m: Fields, id: string)
    ensures Governor(m, id) in Named(Obj(m)) + {id}
  {}

  lemma {:induction false} OpenMemberOk(p: Policies, m: Fields, g: string, levels: nat, k: Key)
    requires !IsSaved(p, m, g, k) && !Inert(p, m, g, k) && FieldEntered(p, m, g, k) == Lookup(m, k)
    ensures MemberOk(p, m, g, levels, k) <==> k !in m || WalkOk(p, m[k], g, levels)
  {}

  // --------------------------------------------------- the named ids suffice

  ghost predicate AgreeOn(p: Policies, q: Policies, ids: set<string>) {
    forall id | id in ids || id == "" ::
      (Allows(p.usage, id) <==> Allows(q.usage, id)) && (Allows(p.controls, id) <==> Allows(q.controls, id))
      && (Allows(p.hosts, id) <==> Allows(q.hosts, id))
  }

  /** Policies that agree on the ids a tree names, and on the empty id, redact it alike. */
  lemma {:induction false} NamedIdsSuffice(p: Policies, q: Policies, v: Json, id: string, levels: nat, ids: set<string>)
    requires AgreeOn(p, q, ids) && Named(v) <= ids && (id == "" || id in ids)
    ensures Walked(p, v, id, levels) == Walked(q, v, id, levels)
    ensures WalkOk(p, v, id, levels) <==> WalkOk(q, v, id, levels)
    decreases levels, 0
  {
    if levels > 0 {
      match v
      case Arr(items) => NamedItemsSuffice(p, q, items, id, levels - 1, ids);
      case Obj(m) => NamedFieldsSuffice(p, q, m, id, levels - 1, ids);
      case _ =>
    }
    hide WalkedItems, WalkedFields, Named, FieldsOk, Governor, WithheldRow;
  }

  lemma {:induction false} SameRow(p: Policies, q: Policies, row: Json, ids: set<string>)
    requires AgreeOn(p, q, ids) && Named(row) <= ids
    ensures WithheldRow(p, row) <==> WithheldRow(q, row)
  {
    if row.Obj? && AccountID(row.fields) != "" { assert AccountID(row.fields) in Named(row); }
    hide AccountID, Guard;
  }

  lemma {:induction false} NamedItemsSuffice(p: Policies, q: Policies, items: seq<Json>, id: string, levels: nat, ids: set<string>)
    requires AgreeOn(p, q, ids) && Named(Arr(items)) <= ids && (id == "" || id in ids)
    ensures WalkedItems(p, items, id, levels) == WalkedItems(q, items, id, levels)
    ensures forall i :: 0 <= i < |items| ==>
              && (WithheldRow(p, items[i]) <==> WithheldRow(q, items[i]))
              && (WalkOk(p, items[i], id, levels) <==> WalkOk(q, items[i], id, levels))
    decreases levels, 1
  {
    hide *;
    forall i | 0 <= i < |items|
      ensures WithheldRow(p, items[i]) <==> WithheldRow(q, items[i])
      ensures Walked(p, items[i], id, levels) == Walked(q, items[i], id, levels)
      ensures WalkOk(p, items[i], id, levels) <==> WalkOk(q, items[i], id, levels)
    {
      ItemNames(items, i);
      SameRow(p, q, items[i], ids);
      NamedIdsSuffice(p, q, items[i], id, levels, ids);
    }
    SameItems(p, q, items, items, id, levels);
  }

  lemma {:induction false} SameItems(p: Policies, q: Policies, items: seq<Json>, other: seq<Json>, id: string, levels: nat)
    requires |items| == |other|
    requires forall i :: 0 <= i < |items| ==>
               && (WithheldRow(p, items[i]) <==> WithheldRow(q, other[i]))
               && (!WithheldRow(p, items[i]) ==> Walked(p, items[i], id, levels) == Walked(q, other[i], id, levels))
    ensures WalkedItems(p, items, id, levels) == WalkedItems(q, other, id, levels)
    decreases |items|
  {
    if items != [] {
      assert forall i :: 0 <= i < |items| - 1 ==> items[1..][i] == items[i + 1] && other[1..][i] == other[i + 1];
      SameItems(p, q, items[1..], other[1..], id, levels);
      hide WithheldRow, Walked;
    }
  }

  lemma {:induction false} SameTreatment(p: Policies, q: Policies, m: Fields, g: string, k: Key)
    requires Denied(p, g) <==> Denied(q, g)
    requires HostHidden(p, g) <==> HostHidden(q, g)
    requires Allows(p.controls, g) <==> Allows(q.controls, g)
    ensures FieldEntered(p, m, g, k) == FieldEntered(q, m, g, k)
    ensures IsSaved(p, m, g, k) <==> IsSaved(q, m, g, k)
    ensures Inert(p, m, g, k) <==> Inert(q, m, g, k)
  {
    hide MaskedField, Lookup, Denied, HostHidden, Allows;
  }

  lemma {:induction false} SameGovernor(p: Policies, q: Policies, m: Fields, id: string, ids: set<string>)
    requires AgreeOn(p, q, ids) && Named(Obj(m)) <= ids && (id == "" || id in ids)
    ensures var g := Governor(m, id);
            && (g == "" || g in ids)
            && (Denied(p, g) <==> Denied(q, g)) && (HostHidden(p, g) <==> HostHidden(q, g))
            && (Allows(p.controls, g) <==> Allows(q.controls, g))
  {
    GovernorNamed(m, id);
    hide Named, Governor, Allows;
  }

  lemma {:induction false} NeutralNamesNobody(v: Json)
    requires Neutral(v) || v == Bool(true)
    ensures Named(v) == {}
  {
    if v == NeutralSchedule() {
      ScheduleIsUntouched();
      UntouchedNamesNobody(v);
    }
    hide NeutralSchedule;
  }

  lemma {:induction false} UntouchedNamesNobody(v: Json)
    requires Untouched(v)
    ensures Named(v) == {}
  {
    match v
    case Arr(items) =>
      forall i | 0 <= i < |items| ensures Named(items[i]) == {} { UntouchedNamesNobody(items[i]); }
    case Obj(m) =>
      forall k | k in m ensures Named(m[k]) == {} { UntouchedNamesNobody(m[k]); }
      assert AccountId !in m && RegisteredBy !in m && Posture !in m;
    case _ =>
  }

  /** A member once entered names no one its object does not. */
  lemma {:induction false} EnteredNames(p: Policies, m: Fields, g: string, k: Key)
    requires FieldEntered(p, m, g, k).Some?
    ensures Named(FieldEntered(p, m, g, k).value) <= Named(Obj(m))
  {
    hide *;
    var o := Opened(p, m, g);
    OpenedMember(p, m, g, k);
    if Denied(p, g) {
      DeniedField(p, m, g, k);
      MaskedPresence(o, k);
      if FateOf(o, k).Shows? {
        ShownIsNeutral(o, k);
        NeutralNamesNobody(FateOf(o, k).v);
      } else {
        FieldNames(m, k);
      }
    } else {
      OpenField(p, m, g, k);
      Present(o, k);
      FieldNames(m, k);
    }
  }

  lemma {:induction false} OpenedMember(p: Policies, m: Fields, g: string, k: Key)
    ensures k in Opened(p, m, g) ==> k in m && Opened(p, m, g)[k] == m[k]
  {}

  lemma {:induction false} NamedFieldsSuffice(p: Policies, q: Policies, m: Fields, id: string, levels: nat, ids: set<string>)
    requires AgreeOn(p, q, ids) && Named(Obj(m)) <= ids && (id == "" || id in ids)
    ensures var g := Governor(m, id);
            && WalkedFields(p, m, g, levels) == WalkedFields(q, m, g, levels)
            && (FieldsOk(p, m, g, levels) <==> FieldsOk(q, m, g, levels))
    decreases levels, 1
  {
    hide *;
    var g := Governor(m, id);
    SameGovernor(p, q, m, id, ids);
    forall k
      ensures Lookup(WalkedFields(p, m, g, levels), k) == Lookup(WalkedFields(q, m, g, levels), k)
      ensures MemberOk(p, m, g, levels, k) <==> MemberOk(q, m, g, levels, k)
    {
      SameTreatment(p, q, m, g, k);
      WalkedFieldAt(p, m, g, levels, k);
      WalkedFieldAt(q, m, g, levels, k);
      if FieldEntered(p, m, g, k).Some? {
        EnteredNames(p, m, g, k);
        NamedIdsSuffice(p, q, FieldEntered(p, m, g, k).value, g, levels, ids);
      }
      SameOk(p, m, q, m, g, levels, k);
    }
    SameLookups(WalkedFields(p, m, g, levels), WalkedFields(q, m, g, levels));
    FieldOk(p, m, g, levels);
    FieldOk(q, m, g, levels);
  }

  lemma {:induction false} SameOk(p: Policies, m: Fields, q: Policies, n: Fields, g: string, levels: nat, k: Key)
    requires IsSaved(p, m, g, k) <==> IsSaved(q, n, g, k)
    requires !IsSaved(p, m, g, k) ==>
               && (Inert(p, m, g, k) <==> Inert(q, n, g, k))
               && (FieldEntered(p, m, g, k).Some? <==> FieldEntered(q, n, g, k).Some?)
               && (FieldEntered(p, m, g, k).Some? ==>
                     (WalkOk(p, FieldEntered(p, m, g, k).value, g, levels) <==> WalkOk(q, FieldEntered(q, n, g, k).value, g, levels)))
    ensures MemberOk(p, m, g, levels, k) <==> MemberOk(q, n, g, levels, k)
  {
    hide FieldEntered, IsSaved, Inert, WalkOk;
  }

  /**
   * `IDs` is sufficient: policies that agree on what it returns, and on the
   * empty id, give the same redacted document.
   */
  lemma {:induction false} IDsSuffice(p: Policies, q: Policies, v: Json, fallback: string, history: bool)
    requires AgreeOn(p, q, Named(v) + (if fallback != "" then {fallback} else {}))
    ensures Redacted(p, v, fallback, history) == Redacted(q, v, fallback, history)
  {
    var ids := Named(v) + (if fallback != "" then {fallback} else {});
    NamedIdsSuffice(p, q, v, fallback, MAX_LEVELS, ids);
    hide Walked, WalkOk, Named;
  }

  // ------------------------------------------- withheld data leave no trace

  /** Members of a denied object that redaction drops whatever they hold, present or not. */
  predicate Dropped(m: Fields, k: Key) {
    NeverTold(k) || k.NextAttemptAt? || (k.Hosts? && AccountId in m) || (k.Routing? && Routable in m)
  }

  /**
   * Two trees alike to a reader: they differ only in host causes the reader may
   * not see and, in objects of denied accounts, in what is withheld. Dropped
   * members may come and go; other withheld members may hold anything.
   */
  ghost predicate Alike(p: Policies, v: Json, w: Json, id: string)
    decreases v, 1
  {
    match v
    case Arr(items) => w.Arr? && |w.items| == |items| && forall i :: 0 <= i < |items| ==> Alike(p, items[i], w.items[i], id)
    case Obj(m) =>
      w.Obj? && AccountID(m) == AccountID(w.fields) && forall k :: AlikeMember(p, m, w.fields, Governor(m, id), k)
    case _ => v == w
  }

  ghost predicate AlikeMember(p: Policies, m: Fields, n: Fields, g: string, k: Key)
    decreases Obj(m), 0
  {
    if IsSaved(p, m, g, k) || IsSaved(p, n, g, k) then Lookup(m, k) == Lookup(n, k)
    else if (HostHidden(p, g) && k.HostReason?) || (Denied(p, g) && Dropped(m, k)) then true
    else (k in m <==> k in n) && (k in m && !(Denied(p, g) && Withheld(m, k)) ==> Alike(p, m[k], n[k], g))
  }

  lemma {:induction false} AlikeKinds(p: Policies, v: Json, w: Json, id: string)
    requires Alike(p, v, w, id)
    ensures v.Arr? <==> w.Arr?
    ensures v.Obj? <==> w.Obj?
    ensures !v.Arr? && !v.Obj? ==> v == w
  {
    hide AlikeMember;
  }

  lemma {:induction false} PlainIsTold(p: Policies, m: Fields, g: string, k: Key)
    requires Plain(k)
    ensures !Withheld(m, k) && !Dropped(m, k)
  {
    PlainIsUnlisted(k);
    ListsAsPromised(k);
    hide Treat, Nulled, Plain, NeverTold, ToldEmpty, ToldBlank, ToldNull;
  }

  lemma {:induction false} AlikePlain(p: Policies, m: Fields, n: Fields, g: string, k: Key)
    requires Plain(k) && AlikeMember(p, m, n, g, k)
    ensures (k in m <==> k in n) && (k in m ==> Alike(p, m[k], n[k], g))
  {
    PlainIsTold(p, m, g, k);
    PlainKind(p, m, g, k);
    PlainKind(p, n, g, k);
    hide Plain, Withheld, Dropped, IsSaved, Alike;
  }

  lemma {:induction false} AlikeLeaf(p: Policies, m: Fields, n: Fields, g: string, k: Key)
    requires Plain(k) && AlikeMember(p, m, n, g, k)
    ensures k in m <==> k in n
    ensures Yes(m, k) == Yes(n, k)
    ensures k in m ==> (m[k] == Null <==> n[k] == Null)
  {
    AlikePlain(p, m, n, g, k);
    if k in m { AlikeKinds(p, m[k], n[k], g); }
    hide Alike, AlikeMember;
  }

  lemma {:induction false} AlikePresence(p: Policies, m: Fields, n: Fields, g: string, k: Key)
    requires Triggering(k) && AlikeMember(p, m, n, g, k)
    ensures k in m <==> k in n
  {
    TriggerIsNotSaved(p, m, g, k);
    TriggerIsNotSaved(p, n, g, k);
    TriggerIsNotDropped(m, k);
    hide IsSaved, Triggering, Dropped, Withheld, Alike;
  }

  lemma {:induction false} TriggerIsNotDropped(m: Fields, k: Key)
    requires Triggering(k)
    ensures !Dropped(m, k)
  {}

  ghost predicate AlikeFields(p: Policies, m: Fields, n: Fields, g: string) {
    forall k :: AlikeMember(p, m, n, g, k)
  }

  lemma {:induction false} AlikeTriggers(p: Policies, m: Fields, n: Fields, g: string)
    requires AlikeFields(p, m, n, g)
    ensures SameTriggers(Opened(p, m, g), Opened(p, n, g))
    ensures Guard(m) <==> Guard(n)
    ensures MeasuredUsage in m <==> MeasuredUsage in n
  {
    assert forall k :: AlikeMember(p, m, n, g, k);
    assert Plain(CanTry) && Plain(Available) && Plain(Posture) && Plain(KeepForYou) && Triggering(MeasuredUsage);
    hide *;
    forall k | Triggering(k)
      ensures k in Opened(p, n, g) <==> k in Opened(p, m, g)
    {
      AlikePresence(p, m, n, g, k);
      TriggerIsNotSaved(p, m, g, k);
      OpenedAt(p, m, g, k);
      OpenedAt(p, n, g, k);
    }
    AlikePresence(p, m, n, g, MeasuredUsage);
    forall k | Plain(k)
      ensures k in m <==> k in n
      ensures Yes(Opened(p, m, g), k) == Yes(Opened(p, n, g), k)
    {
      AlikeLeaf(p, m, n, g, k);
      PlainKind(p, m, g, k);
      OpenedAt(p, m, g, k);
      OpenedAt(p, n, g, k);
    }
    GuardMeans(m);
    GuardMeans(n);
    TriggersAre(Opened(p, m, g), Opened(p, n, g));
  }

  lemma {:induction false} GuardMeans(m: Fields)
    ensures Guard(m) <==> Posture in m && KeepForYou in m
  {}

  lemma {:induction false} AlikeSaved(p: Policies, m: Fields, n: Fields, g: string, k: Key)
    requires AlikeFields(p, m, n, g)
    ensures IsSaved(p, m, g, k) <==> IsSaved(p, n, g, k)
    ensures IsSaved(p, m, g, k) ==> Lookup(m, k) == Lookup(n, k)
  {
    assert AlikeMember(p, m, n, g, k);
    assert AlikeMember(p, m, n, g, RequestedAt) && AlikeMember(p, m, n, g, ActorPrincipalId);
    AlikeLeaf(p, m, n, g, RequestedAt);
    AlikeLeaf(p, m, n, g, ActorPrincipalId);
    Present(m, k);
    Present(n, k);
    hide Lookup, Denied, Allows, Dropped, Withheld, Alike, AlikeFields, HostHidden, Yes;
  }

  /** What an alike member becomes: the same, or alike members to be walked. */
  lemma {:induction false} AlikeEntered(p: Policies, m: Fields, n: Fields, g: string, k: Key)
    requires AlikeFields(p, m, n, g) && !IsSaved(p, m, g, k) && !IsSaved(p, n, g, k)
    ensures FieldEntered(p, m, g, k) == FieldEntered(p, n, g, k)
            || (k in m && k in n && FieldEntered(p, m, g, k) == Some(m[k]) && FieldEntered(p, n, g, k) == Some(n[k])
                && Alike(p, m[k], n[k], g) && !Inert(p, m, g, k))
  {
    assert AlikeMember(p, m, n, g, k);
    if Denied(p, g) {
      DeniedAlike(p, m, n, g, k);
    } else {
      OpenField(p, m, g, k);
      OpenField(p, n, g, k);
      hide IsSaved, Alike, AlikeFields, Dropped, Withheld, FieldEntered, HostHidden, Denied;
    }
  }

  lemma {:induction false} AlikeUnfolds(p: Policies, m: Fields, n: Fields, g: string, k: Key)
    requires AlikeMember(p, m, n, g, k) && !IsSaved(p, m, g, k) && !IsSaved(p, n, g, k)
    ensures (HostHidden(p, g) && k.HostReason?) || (Denied(p, g) && Dropped(m, k))
            || ((k in m <==> k in n) && (k in m && !(Denied(p, g) && Withheld(m, k)) ==> Alike(p, m[k], n[k], g)))
  {
    hide IsSaved, Alike, Dropped, Withheld, HostHidden, Denied;
  }

  lemma {:induction false} DroppedIsGone(p: Policies, m: Fields, g: string, k: Key)
    requires Dropped(m, k)
    ensures !FateOf(Opened(p, m, g), k).Kept?
    ensures Treat(k).Removed? || (k.Hosts? && AccountId in Opened(p, m, g)) || (k.Routing? && Routable in Opened(p, m, g))
  {
    assert AccountId in Opened(p, m, g) <==> AccountId in m;
    assert Routable in Opened(p, m, g) <==> Routable in m;
    ListsAsPromised(k);
    hide NeverTold, Opened, Treat, Nulled, Marked, StateWait, NeutralSchedule, StateCode, Suggest, Reason, BareState, Reasons;
  }

  lemma {:induction false} HostIsListed(p: Policies, m: Fields, g: string)
    ensures Treat(HostReason).Removed? && !FateOf(Opened(p, m, g), HostReason).Kept?
  {
    hide Opened, Nulled, Marked, StateWait, NeutralSchedule, StateCode, Suggest, Reason, BareState, Reasons;
  }

  lemma {:induction false} WithheldOpened(p: Policies, m: Fields, g: string, k: Key)
    requires Withheld(m, k)
    ensures !FateOf(Opened(p, m, g), k).Kept?
  {
    var o := Opened(p, m, g);
    assert (LatestReadings in o <==> LatestReadings in m) && (MeasuredUsage in o <==> MeasuredUsage in m)
           && (Routable in o <==> Routable in m) && (AccountId in o <==> AccountId in m);
    assert Withheld(o, k);
    WithheldIsNotKept(o, k);
    hide Withheld, FateOf, Opened;
  }

  lemma {:induction false} InertIsNotKept(p: Policies, m: Fields, g: string, k: Key)
    requires Inert(p, m, g, k)
    ensures !FateOf(Opened(p, m, g), k).Kept?
  {
    hide *;
    InertMeans(p, m, g, k);
    OpenedAt(p, m, g, MeasuredUsage);
    InertFate(Opened(p, m, g), k);
  }

  lemma {:induction false} DeniedAlike(p: Policies, m: Fields, n: Fields, g: string, k: Key)
    requires Denied(p, g) && AlikeFields(p, m, n, g) && AlikeMember(p, m, n, g, k)
    requires !IsSaved(p, m, g, k) && !IsSaved(p, n, g, k)
    ensures FieldEntered(p, m, g, k) == FieldEntered(p, n, g, k)
            || (k in m && k in n && FieldEntered(p, m, g, k) == Some(m[k]) && FieldEntered(p, n, g, k) == Some(n[k])
                && Alike(p, m[k], n[k], g) && !Inert(p, m, g, k))
  {
    hide *;
    var o, q := Opened(p, m, g), Opened(p, n, g);
    AlikeTriggers(p, m, n, g);
    AlikeUnfolds(p, m, n, g, k);
    DeniedField(p, m, g, k);
    DeniedField(p, n, g, k);
    MaskedPresence(o, k);
    MaskedPresence(q, k);
    OpenedMember(p, m, g, k);
    OpenedMember(p, n, g, k);
    HostIsListed(p, m, g);
    if !k.HostReason? {
      OpenedAt(p, m, g, k);
      OpenedAt(p, n, g, k);
    } else {
      assert Treat(k).Removed?;
    }
    if Dropped(m, k) { DroppedIsGone(p, m, g, k); }
    if Withheld(m, k) { WithheldOpened(p, m, g, k); }
    if Inert(p, m, g, k) { InertIsNotKept(p, m, g, k); }
    TreatedAlike(o, q, k);
  }

  /** Redaction does not depend on what it withholds: alike trees redact to the same tree. */
  lemma {:induction false} AlikeTreesRedactAlike(p: Policies, v: Json, w: Json, id: string, levels: nat)
    requires Alike(p, v, w, id)
    ensures WalkOk(p, v, id, levels) <==> WalkOk(p, w, id, levels)
    ensures WalkOk(p, v, id, levels) ==> Walked(p, v, id, levels) == Walked(p, w, id, levels)
    decreases levels, 0
  {
    AlikeKinds(p, v, w, id);
    if levels > 0 {
      match v
      case Arr(items) => AlikeItems(p, items, w.items, id, levels - 1);
      case Obj(m) => AlikeObjects(p, m, w.fields, id, levels - 1);
      case _ =>
    }
    hide WalkedItems, WalkedFields, FieldsOk, Governor, WithheldRow, Alike;
  }

  lemma {:induction false} AlikeItem(p: Policies, items: seq<Json>, other: seq<Json>, id: string, i: nat)
    requires Alike(p, Arr(items), Arr(other), id) && i < |items|
    ensures |items| == |other| && Alike(p, items[i], other[i], id)
  {}

  lemma {:induction false} AlikeObject(p: Policies, m: Fields, n: Fields, id: string)
    requires Alike(p, Obj(m), Obj(n), id)
    ensures AccountID(m) == AccountID(n) && Governor(n, id) == Governor(m, id) && AlikeFields(p, m, n, Governor(m, id))
  {
    hide AccountID, AlikeMember;
  }

  lemma {:induction false} AlikeRow(p: Policies, row: Json, other: Json, id: string)
    requires Alike(p, row, other, id)
    ensures WithheldRow(p, row) <==> WithheldRow(p, other)
  {
    AlikeKinds(p, row, other, id);
    if row.Obj? {
      AlikeObject(p, row.fields, other.fields, id);
      AlikeTriggers(p, row.fields, other.fields, Governor(row.fields, id));
    }
    hide Guard, AccountID, Alike, AlikeFields;
  }

  lemma {:induction false} AlikeItems(p: Policies, items: seq<Json>, other: seq<Json>, id: string, levels: nat)
    requires Alike(p, Arr(items), Arr(other), id)
    ensures |items| == |other|
    ensures forall i :: 0 <= i < |items| ==>
              && (WithheldRow(p, items[i]) <==> WithheldRow(p, other[i]))
              && (WalkOk(p, items[i], id, levels) <==> WalkOk(p, other[i], id, levels))
    ensures (forall i :: 0 <= i < |items| ==> WithheldRow(p, items[i]) || WalkOk(p, items[i], id, levels)) ==>
              WalkedItems(p, items, id, levels) == WalkedItems(p, other, id, levels)
    decreases levels, 1
  {
    AlikeLength(p, items, other, id);
    hide *;
    forall i | 0 <= i < |items|
      ensures WithheldRow(p, items[i]) <==> WithheldRow(p, other[i])
      ensures WalkOk(p, items[i], id, levels) <==> WalkOk(p, other[i], id, levels)
      ensures WalkOk(p, items[i], id, levels) ==> Walked(p, items[i], id, levels) == Walked(p, other[i], id, levels)
    {
      AlikeItem(p, items, other, id, i);
      AlikeRow(p, items[i], other[i], id);
      AlikeTreesRedactAlike(p, items[i], other[i], id, levels);
    }
    if forall i :: 0 <= i < |items| ==> WithheldRow(p, items[i]) || WalkOk(p, items[i], id, levels) {
      SameItems(p, p, items, other, id, levels);
    }
  }

  lemma {:induction false} AlikeLength(p: Policies, items: seq<Json>, other: seq<Json>, id: string)
    requires Alike(p, Arr(items), Arr(other), id)
    ensures |items| == |other|
  {}

  lemma {:induction false} AlikeObjects(p: Policies, m: Fields, n: Fields, id: string, levels: nat)
    requires Alike(p, Obj(m), Obj(n), id)
    ensures Governor(n, id) == Governor(m, id)
    ensures FieldsOk(p, m, Governor(m, id), levels) <==> FieldsOk(p, n, Governor(m, id), levels)
    ensures FieldsOk(p, m, Governor(m, id), levels) ==>
              WalkedFields(p, m, Governor(m, id), levels) == WalkedFields(p, n, Governor(m, id), levels)
    decreases levels, 1
  {
    hide *;
    AlikeObject(p, m, n, id);
    var g := Governor(m, id);
    forall k
      ensures MemberOk(p, m, g, levels, k) <==> MemberOk(p, n, g, levels, k)
      ensures MemberOk(p, m, g, levels, k) ==>
                Lookup(WalkedFields(p, m, g, levels), k) == Lookup(WalkedFields(p, n, g, levels), k)
    {
      AlikeSaved(p, m, n, g, k);
      AlikeInert(p, m, n, g, k);
      WalkedFieldAt(p, m, g, levels, k);
      WalkedFieldAt(p, n, g, levels, k);
      if !IsSaved(p, m, g, k) {
        AlikeEntered(p, m, n, g, k);
        if FieldEntered(p, m, g, k) != FieldEntered(p, n, g, k) {
          AlikeTreesRedactAlike(p, m[k], n[k], g, levels);
          if MemberOk(p, m, g, levels, k) { OkMeans(p, m, g, levels, k); }
        }
      }
      SameOk(p, m, p, n, g, levels, k);
    }
    FieldOk(p, m, g, levels);
    FieldOk(p, n, g, levels);
    if FieldsOk(p, m, g, levels) {
      assert forall k :: MemberOk(p, m, g, levels, k);
      SameLookups(WalkedFields(p, m, g, levels), WalkedFields(p, n, g, levels));
    }
  }

  lemma {:induction false} AlikeInert(p: Policies, m: Fields, n: Fields, g: string, k: Key)
    requires AlikeFields(p, m, n, g)
    ensures Inert(p, m, g, k) <==> Inert(p, n, g, k)
  {
    AlikeTriggers(p, m, n, g);
    hide AlikeFields, SameTriggers, Guard;
  }

  /** The same for `RedactWithControls`. */
  lemma {:induction false} WithheldDataAreIrrelevant(p: Policies, v: Json, w: Json, fallback: string, history: bool)
    requires Alike(p, v, w, fallback)
    ensures Redacted(p, v, fallback, history) == Redacted(p, w, fallback, history)
  {
    AlikeTreesRedactAlike(p, v, w, fallback, MAX_LEVELS);
    hide Walked, WalkOk, Alike;
  }
}
