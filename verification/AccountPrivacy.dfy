/**
 * The redacting walk of internal/accountprivacy/privacy.go, with the account
 * id each object inherits from the nearest enclosing one.
 */
module AccountPrivacy {
  import opened Sharing
  import opened Wrappers
  import opened PrivacyDocument
  import opened PrivacyMask

  datatype Policies = Policies(usage: Policy, controls: Policy, hosts: Policy)

  /** The usage of the governing account is withheld. */
  predicate Denied(p: Policies, g: string) { g != "" && !Allows(p.usage, g) }

  predicate HostHidden(p: Policies, g: string) { g != "" && !Allows(p.hosts, g) }

  // ------------------------------------------------------------- the walk

  /** Check controls and results kept for those who may control the account's checks. */
  predicate IsSaved(p: Policies, m: Fields, g: string, k: Key) {
    && Denied(p, g) && Allows(p.controls, g) && k in m
    && (k.PendingCheck? || k.ReadinessResources? || k.CheckResult?
        || (k.Outcome? && RequestedAt in m && ActorPrincipalId in m && m[ActorPrincipalId] != Null))
  }

  function Saved(p: Policies, m: Fields, g: string): Fields { map k | k in m && IsSaved(p, m, g, k) :: m[k] }

  /** An object without host details and, for a denied account, masked. */
  function Entered(p: Policies, m: Fields, g: string): Fields {
    var open := if HostHidden(p, g) then m - {HostReason} else m;
    if Denied(p, g) then Mask(open) else open
  }

  /** Members the mask wrote as plain string lists; the walk does not enter them. */
  predicate Inert(p: Policies, m: Fields, g: string, k: Key) {
    Denied(p, g) && (k.UnavailableReasons? || (k.ReasonCodes? && MeasuredUsage in m))
  }

  /** A guard row whose account is not shared: its required fields cannot be blanked, so the row goes. */
  predicate WithheldRow(p: Policies, row: Json) {
    row.Obj? && Guard(row.fields) && !Allows(p.usage, AccountID(row.fields))
  }

  /** The redacted tree. */
  function Walked(p: Policies, v: Json, id: string, levels: nat): Json
    decreases levels, 0
  {
    if levels == 0 then v
    else
      match v
      case Arr(items) => Arr(WalkedItems(p, items, id, levels - 1))
      case Obj(m) => Obj(WalkedFields(p, m, Governor(m, id), levels - 1))
      case _ => v
  }

  function WalkedItems(p: Policies, items: seq<Json>, id: string, levels: nat): seq<Json>
    decreases levels, |items| + 1
  {
    if items == [] then []
    else
      (if WithheldRow(p, items[0]) then [] else [Walked(p, items[0], id, levels)]) + WalkedItems(p, items[1..], id, levels)
  }

  function WalkedFields(p: Policies, m: Fields, g: string, levels: nat): Fields
    decreases levels, 1
  {
    var entered, saved := Entered(p, m, g), Saved(p, m, g);
    map k | k in entered.Keys + saved.Keys :: if k in saved then saved[k] else Walked(p, entered[k], g, levels)
  }

  /** Whether the walk stays within the nesting bound. */
  predicate WalkOk(p: Policies, v: Json, id: string, levels: nat)
    decreases levels, 0
  {
    levels > 0 &&
    match v
    case Arr(items) => forall i :: 0 <= i < |items| ==> WithheldRow(p, items[i]) || WalkOk(p, items[i], id, levels - 1)
    case Obj(m) => FieldsOk(p, m, Governor(m, id), levels - 1)
    case _ => true
  }

  predicate FieldsOk(p: Policies, m: Fields, g: string, levels: nat)
    decreases levels, 1
  {
    var entered := Entered(p, m, g);
    forall k <- entered ::
      IsSaved(p, m, g, k) || (if Inert(p, m, g, k) then levels > 0 else WalkOk(p, entered[k], g, levels))
  }

  method Walk(p: Policies, v: Json, id: string, levels: nat) returns (r: Option<Json>)
    ensures r == if WalkOk(p, v, id, levels) then Some(Walked(p, v, id, levels)) else None
    decreases levels, 0
  {
    if levels == 0 { return None; }
    match v {
      case Arr(items) =>
        var out := WalkItems(p, items, id, levels - 1);
        r := if out.Some? then Some(Arr(out.value)) else None;
      case Obj(m) =>
        var out := WalkFields(p, m, Governor(m, id), levels - 1);
        r := if out.Some? then Some(Obj(out.value)) else None;
      case _ => r := Some(v);
    }
  }

  method WalkItems(p: Policies, items: seq<Json>, id: string, levels: nat) returns (r: Option<seq<Json>>)
    ensures r.Some? <==> forall i :: 0 <= i < |items| ==> WithheldRow(p, items[i]) || WalkOk(p, items[i], id, levels)
    ensures r.Some? ==> r.value == WalkedItems(p, items, id, levels)
    decreases levels, 1
  {
    hide WithheldRow, WalkOk, Walked, WalkedItems;
    var out: seq<Json> := [];
    NoneLeft(p, items, id, levels);
    for i := 0 to |items|
      invariant forall j :: 0 <= j < i ==> WithheldRow(p, items[j]) || WalkOk(p, items[j], id, levels)
      invariant out + WalkedItems(p, items[i..], id, levels) == WalkedItems(p, items, id, levels)
    {
      OneWalked(p, items, id, levels, i);
      if WithheldRow(p, items[i]) { continue; }
      var next := Walk(p, items[i], id, levels);
      if next.None? { return None; }
      out := out + [next.value];
    }
    r := Some(out);
  }

  lemma {:induction false} NoneLeft(p: Policies, items: seq<Json>, id: string, levels: nat)
    ensures items[0..] == items && WalkedItems(p, items[|items|..], id, levels) == []
  {}

  lemma {:induction false} OneWalked(p: Policies, items: seq<Json>, id: string, levels: nat, i: nat)
    requires i < |items|
    ensures WalkedItems(p, items[i..], id, levels) ==
            (if WithheldRow(p, items[i]) then [] else [Walked(p, items[i], id, levels)]) + WalkedItems(p, items[i + 1..], id, levels)
  {
    assert items[i..][0] == items[i] && items[i..][1..] == items[i + 1..];
    hide WithheldRow, Walked;
  }

  method WalkFields(p: Policies, m: Fields, g: string, levels: nat) returns (r: Option<Fields>)
    ensures r.Some? <==> FieldsOk(p, m, g, levels)
    ensures r.Some? ==> r.value == WalkedFields(p, m, g, levels)
    decreases levels, 2
  {
    hide Mask, FieldsOk, WalkedFields, Saved;
    var obj := m;
    if g != "" && !Allows(p.hosts, g) { obj := obj - {HostReason}; }
    var saved: Fields := map[];
    if g != "" && !Allows(p.usage, g) {
      if Allows(p.controls, g) { saved := SaveControls(obj); }
      obj := MaskInPlace(obj);
    }
    SavedInPlace(p, m, g, saved);
    r := WalkMembers(p, m, g, levels, obj, saved);
  }

  function Controls(m: Fields, k: Key): Option<Json> {
    if k in m && (k.PendingCheck? || k.ReadinessResources? || k.CheckResult?
                  || (k.Outcome? && RequestedAt in m && ActorPrincipalId in m && m[ActorPrincipalId] != Null))
    then Some(m[k]) else None
  }

  /** The members set aside before the mask. */
  method SaveControls(obj: Fields) returns (saved: Fields)
    ensures forall k :: Lookup(saved, k) == Controls(obj, k)
  {
    saved := map[];
    if PendingCheck in obj { saved := saved[PendingCheck := obj[PendingCheck]]; }
    if ReadinessResources in obj { saved := saved[ReadinessResources := obj[ReadinessResources]]; }
    if CheckResult in obj { saved := saved[CheckResult := obj[CheckResult]]; }
    if RequestedAt in obj && ActorPrincipalId in obj && obj[ActorPrincipalId] != Null {
      if Outcome in obj { saved := saved[Outcome := obj[Outcome]]; }
    }
  }

  lemma {:induction false} SavedInPlace(p: Policies, m: Fields, g: string, saved: Fields)
    requires var open := if HostHidden(p, g) then m - {HostReason} else m;
             if Denied(p, g) && Allows(p.controls, g) then forall k :: Lookup(saved, k) == Controls(open, k) else saved == map[]
    ensures saved == Saved(p, m, g)
  {
    var open := if HostHidden(p, g) then m - {HostReason} else m;
    forall k
      ensures Lookup(saved, k) == if k in m && IsSaved(p, m, g, k) then Some(m[k]) else None
    {
      assert Denied(p, g) && Allows(p.controls, g) ==> Lookup(saved, k) == Controls(open, k);
    }
    assert forall k :: Lookup(Saved(p, m, g), k) == if k in m && IsSaved(p, m, g, k) then Some(m[k]) else None;
    SameLookups(saved, Saved(p, m, g));
  }

  lemma {:induction false} SameLookups(a: Fields, b: Fields)
    requires forall k :: Lookup(a, k) == Lookup(b, k)
    ensures a == b
  {
    assert forall k :: (k in a <==> Lookup(a, k).Some?) && (k in b <==> Lookup(b, k).Some?);
  }

  lemma {:induction false} SavedIsPresent(p: Policies, m: Fields, g: string, k: Key)
    ensures IsSaved(p, m, g, k) ==> k in m
  {}

  /** The members of an entered object, each walked in place; saved ones put back at the end. */
  method WalkMembers(p: Policies, m: Fields, g: string, levels: nat, entered: Fields, saved: Fields) returns (r: Option<Fields>)
    requires entered == Entered(p, m, g) && saved == Saved(p, m, g)
    ensures r.Some? <==> FieldsOk(p, m, g, levels)
    ensures r.Some? ==> r.value == WalkedFields(p, m, g, levels)
    decreases levels, 1
  {
    hide Entered, Walked, WalkOk, IsSaved, Inert;
    var obj := entered;
    var left := entered.Keys;
    while left != {}
      invariant left <= entered.Keys && obj.Keys == entered.Keys
      invariant forall k <- entered :: obj[k] == if k in left || k in saved then entered[k] else Walked(p, entered[k], g, levels)
      invariant forall k <- entered :: k in left || IsSaved(p, m, g, k)
                  || (if Inert(p, m, g, k) then levels > 0 else WalkOk(p, entered[k], g, levels))
      decreases left
    {
      var key :| key in left;
      left := left - {key};
      SavedIsPresent(p, m, g, key);
      if key in saved { continue; }
      if Inert(p, m, g, key) {
        if levels == 0 { return None; }
        InertIsText(p, m, g, key, levels);
        continue;
      }
      var next := Walk(p, entered[key], g, levels);
      if next.None? { return None; }
      obj := obj[key := next.value];
    }
    obj := obj + saved;
    r := Some(obj);
  }

  /** An inert member holds only texts, which the walk leaves alone. */
  lemma {:induction false} InertIsText(p: Policies, m: Fields, g: string, k: Key, levels: nat)
    requires Inert(p, m, g, k) && k in Entered(p, m, g)
    ensures Walked(p, Entered(p, m, g)[k], g, levels) == Entered(p, m, g)[k]
  {
    var open := if HostHidden(p, g) then m - {HostReason} else m;
    MaskAt(open, k);
    Present(Mask(open), k);
    InertField(open, k);
    hide Mask, MaskedField;
    TextsUnchanged(p, Entered(p, m, g)[k].items, g, levels);
  }

  lemma {:induction false} InertField(m: Fields, k: Key)
    requires k.UnavailableReasons? || (k.ReasonCodes? && MeasuredUsage in m)
    ensures MaskedField(m, k).Some? ==>
              MaskedField(m, k).value.Arr? && forall i :: 0 <= i < |MaskedField(m, k).value.items| ==> MaskedField(m, k).value.items[i].Str?
  {
    hide Marked;
  }

  lemma {:induction false} TextsUnchanged(p: Policies, items: seq<Json>, id: string, levels: nat)
    requires forall i :: 0 <= i < |items| ==> items[i].Str?
    ensures Walked(p, Arr(items), id, levels) == Arr(items)
  {
    if levels > 0 { TextItems(p, items, id, levels - 1); }
  }

  lemma {:induction false} TextItems(p: Policies, items: seq<Json>, id: string, levels: nat)
    requires forall i :: 0 <= i < |items| ==> items[i].Str?
    ensures WalkedItems(p, items, id, levels) == items
  {
    if items != [] {
      TextItems(p, items[1..], id, levels);
      assert Walked(p, items[0], id, levels) == items[0];
    }
  }

  /** `RedactWithControls`. */
  method Redact(p: Policies, v: Json, fallback: string, history: bool) returns (r: Option<Json>)
    ensures r == Redacted(p, v, fallback, history)
  {
    if history && !Allows(p.usage, fallback) { return Some(Arr([])); }
    r := Walk(p, v, fallback, MAX_LEVELS);
  }

  function Redacted(p: Policies, v: Json, fallback: string, history: bool): Option<Json> {
    if history && !Allows(p.usage, fallback) then Some(Arr([]))
    else if WalkOk(p, v, fallback, MAX_LEVELS) then Some(Walked(p, v, fallback, MAX_LEVELS))
    else None
  }
}
