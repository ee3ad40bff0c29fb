/**
 * Stored event snapshots (`EventSnapshot` in internal/accountprivacy/privacy.go):
 * an allow-list for objects of accounts that are not shared, and for objects
 * of no account at all.
 */
module EventSnapshots {
  import opened Sharing
  import opened Wrappers
  import opened PrivacyDocument
  import opened PrivacyMask
  import opened PrivacyPromise
  import opened AccountPrivacy

  const TOLD: seq<string> := [
    "check_id", "binding_revision", "harness", "daemon_id", "label", "ongoing_use_approved", "owner_person_id", "linked_at",
    "link_revision", "share_usage", "max_parallel_runs"]

  predicate Told(k: Key) {
    match k
    case Id | AccountId | ActorPrincipalId | State | RegisteredBy => true
    case Other(name) => name in TOLD
    case _ => false
  }

  function Remaining(p: Policy, m: Fields, g: string): Fields { map k | k in m && (Allows(p, g) || Told(k)) :: m[k] }

  /** The trimmed tree. */
  function Trimmed(p: Policy, v: Json, id: string): Json
    decreases v, 1
  {
    match v
    case Arr(items) => Arr(seq(|items|, i requires 0 <= i < |items| => Trimmed(p, items[i], id)))
    case Obj(m) => Obj(TrimmedFields(p, m, Governor(m, id)))
    case _ => v
  }

  function TrimmedFields(p: Policy, m: Fields, g: string): Fields
    decreases Obj(m), 0
  {
    map k | k in Remaining(p, m, g) :: Trimmed(p, m[k], g)
  }

  predicate TrimOk(p: Policy, v: Json, id: string, levels: nat) {
    levels > 0 &&
    match v
    case Arr(items) => forall i :: 0 <= i < |items| ==> TrimOk(p, items[i], id, levels - 1)
    case Obj(m) => forall k <- Remaining(p, m, Governor(m, id)) :: TrimOk(p, m[k], Governor(m, id), levels - 1)
    case _ => true
  }

  /** `EventSnapshot`'s walk, in place. */
  method Trim(p: Policy, v: Json, id: string, levels: nat) returns (r: Option<Json>)
    ensures r == if TrimOk(p, v, id, levels) then Some(Trimmed(p, v, id)) else None
    decreases levels, 0
  {
    if levels == 0 { return None; }
    match v {
      case Arr(items) =>
        var out := items;
        for i := 0 to |items|
          invariant |out| == |items|
          invariant forall j :: 0 <= j < i ==> TrimOk(p, items[j], id, levels - 1)
          invariant forall j :: 0 <= j < |items| ==> out[j] == if j < i then Trimmed(p, items[j], id) else items[j]
        {
          var next := Trim(p, items[i], id, levels - 1);
          if next.None? { return None; }
          out := out[i := next.value];
        }
        assert out == Trimmed(p, v, id).items;
        r := Some(Arr(out));
      case Obj(m) =>
        var out := TrimFields(p, m, Governor(m, id), levels - 1);
        r := if out.Some? then Some(Obj(out.value)) else None;
      case _ => r := Some(v);
    }
  }

  method DropUntold(m: Fields) returns (obj: Fields)
    ensures obj == map k | k in m && Told(k) :: m[k]
  {
    hide Told;
    obj := m;
    var left := m.Keys;
    while left != {}
      invariant left <= m.Keys
      invariant obj == map k | k in m && (k in left || Told(k)) :: m[k]
      decreases left
    {
      var key :| key in left;
      if !Told(key) { obj := obj - {key}; }
      left := left - {key};
    }
  }

  method TrimFields(p: Policy, m: Fields, g: string, levels: nat) returns (r: Option<Fields>)
    ensures r.Some? <==> forall k <- Remaining(p, m, g) :: TrimOk(p, m[k], g, levels)
    ensures r.Some? ==> r.value == TrimmedFields(p, m, g)
    decreases levels, 1
  {
    hide Trimmed, TrimOk, Told;
    var obj := m;
    if !Allows(p, g) { obj := DropUntold(m); }
    assert obj == Remaining(p, m, g);
    var left := obj.Keys;
    while left != {}
      invariant obj.Keys == Remaining(p, m, g).Keys && left <= obj.Keys
      invariant forall k <- obj :: k in left || TrimOk(p, m[k], g, levels)
      invariant forall k <- obj :: obj[k] == if k in left then m[k] else Trimmed(p, m[k], g)
      decreases left
    {
      var key :| key in left;
      var next := Trim(p, obj[key], g, levels);
      if next.None? { return None; }
      obj := obj[key := next.value];
      left := left - {key};
    }
    r := Some(obj);
  }

  // ------------------------------------------------------------------ safety

  lemma {:induction false} ToldAsPromised(k: Key)
    ensures Told(k) <==> MayTell(k)
  {
    if k.Other? { assert TOLD == CHECK_NAMES + LINK_NAMES; }
  }

  /** Objects of an account that is not shared, or of none, tell only what an event may tell. */
  ghost predicate TellsLittle(p: Policy, v: Json, id: string) {
    match v
    case Arr(items) => forall i :: 0 <= i < |items| ==> TellsLittle(p, items[i], id)
    case Obj(m) =>
      forall g: string :: Governs(g, m, id) ==>
        forall k <- m :: ((g in p && p[g]) || MayTell(k)) && TellsLittle(p, m[k], g)
    case _ => true
  }

  /** A trimmed object member by member: of a shared account all of it, else exactly what may be told. */
  lemma {:induction false} TrimmedMember(p: Policy, m: Fields, id: string, g: string, k: Key)
    requires Governs(g, m, id)
    ensures var n := Trimmed(p, Obj(m), id).fields;
            && (k in n <==> k in m && ((g in p && p[g]) || MayTell(k)))
            && (k in n ==> n[k] == Trimmed(p, m[k], g))
  {
    GovernorGoverns(m, id, g);
    ToldAsPromised(k);
    hide Governs, Governor, Told, MayTell;
  }

  lemma {:induction false} KindSurvives(p: Policy, v: Json, id: string)
    ensures v.Str? || Trimmed(p, v, id).Str? ==> Trimmed(p, v, id) == v
    ensures v.Obj? <==> Trimmed(p, v, id).Obj?
    ensures v.Arr? <==> Trimmed(p, v, id).Arr?
  {}

  /**
   * Whose object it is after trimming: the same account, or none for a guard
   * row that lost the members naming it a guard. That happens only to rows
   * that were not shared.
   */
  lemma {:induction false} TrimmedIdentity(p: Policy, m: Fields, id: string)
    ensures var g := Governor(m, id);
            var n := TrimmedFields(p, m, g);
            AccountID(n) == AccountID(m) || (AccountID(n) == "" && !Allows(p, g))
  {
    var g := Governor(m, id);
    var n := TrimmedFields(p, m, g);
    assert forall k <- n :: k in m && n[k] == Trimmed(p, m[k], g);
    assert UuidAt(n, AccountId) == UuidAt(m, AccountId) by {
      assert AccountId in m <==> AccountId in n;
      if AccountId in m { KindSurvives(p, m[AccountId], g); }
    }
    assert UuidAt(n, Id) == UuidAt(m, Id) by {
      assert Id in m <==> Id in n;
      if Id in m { KindSurvives(p, m[Id], g); }
    }
    assert RegisteredBy in m <==> RegisteredBy in n;
    assert Allows(p, g) ==> (Guard(m) <==> Guard(n));
    assert Guard(n) ==> Guard(m);
    hide UuidAt, Trimmed, Allows, Told;
  }

  /**
   * Trimmed snapshots tell little, and trimming again changes nothing. `other`
   * is the id the trimmed tree inherits the second time: the same, or any when
   * the first was not shared (below a guard row that lost its identity).
   */
  lemma {:induction false} TrimIsSafeAndStable(p: Policy, v: Json, id: string, other: string)
    requires other == id || !Allows(p, id)
    ensures TellsLittle(p, Trimmed(p, v, id), other)
    ensures Trimmed(p, Trimmed(p, v, id), other) == Trimmed(p, v, id)
  {
    match v
    case Arr(items) =>
      var out := Trimmed(p, v, id).items;
      forall i | 0 <= i < |items|
        ensures TellsLittle(p, out[i], other) && Trimmed(p, out[i], other) == out[i]
      {
        TrimIsSafeAndStable(p, items[i], id, other);
      }
      assert Trimmed(p, Arr(out), other).items == out;
    case Obj(m) =>
      var g := Governor(m, id);
      var n := TrimmedFields(p, m, g);
      var h := Governor(n, other);
      TrimmedIdentity(p, m, id);
      assert h == g || !Allows(p, g);
      forall k | k in m
        ensures TellsLittle(p, Trimmed(p, m[k], g), h) && Trimmed(p, Trimmed(p, m[k], g), h) == Trimmed(p, m[k], g)
      {
        TrimIsSafeAndStable(p, m[k], g, h);
      }
      FieldsStable(p, m, id, other);
      hide *;
    case _ =>
  }

  lemma {:induction false} FieldsStable(p: Policy, m: Fields, id: string, other: string)
    requires var g := Governor(m, id);
             var h := Governor(TrimmedFields(p, m, g), other);
             && (h == g || !Allows(p, g))
             && forall k <- m :: TellsLittle(p, Trimmed(p, m[k], g), h) && Trimmed(p, Trimmed(p, m[k], g), h) == Trimmed(p, m[k], g)
    ensures TellsLittle(p, Trimmed(p, Obj(m), id), other)
    ensures Trimmed(p, Trimmed(p, Obj(m), id), other) == Trimmed(p, Obj(m), id)
  {
    var g := Governor(m, id);
    var n := TrimmedFields(p, m, g);
    var h := Governor(n, other);
    FieldsAgain(p, m, g, h);
    forall x: string ensures Governs(x, n, other) ==> x == h { GovernorGoverns(n, other, x); }
    forall k: Key ensures Told(k) <==> MayTell(k) { ToldAsPromised(k); }
    assert Trimmed(p, Obj(m), id) == Obj(n) && Trimmed(p, Obj(n), other) == Obj(TrimmedFields(p, n, h));
    hide TrimmedFields, Governor, Governs, Told, MayTell, Trimmed;
  }

  lemma {:induction false} FieldsAgain(p: Policy, m: Fields, g: string, h: string)
    requires h == g || !Allows(p, g)
    requires forall k <- m :: TellsLittle(p, Trimmed(p, m[k], g), h) && Trimmed(p, Trimmed(p, m[k], g), h) == Trimmed(p, m[k], g)
    ensures var n := TrimmedFields(p, m, g);
            && TrimmedFields(p, n, h) == n
            && forall k <- n :: (Allows(p, h) || Told(k)) && TellsLittle(p, n[k], h)
  {
    hide Allows, Told, Trimmed, TellsLittle;
  }

  /** A snapshot whose objects all belong to shared accounts passes unchanged. */
  ghost predicate AllShared(p: Policy, v: Json, id: string) {
    match v
    case Arr(items) => forall i :: 0 <= i < |items| ==> AllShared(p, items[i], id)
    case Obj(m) => Allows(p, Governor(m, id)) && forall k <- m :: AllShared(p, m[k], Governor(m, id))
    case _ => true
  }

  lemma {:induction false} SharedIsUnchanged(p: Policy, v: Json, id: string)
    requires AllShared(p, v, id)
    ensures Trimmed(p, v, id) == v
  {
    match v
    case Arr(items) =>
      forall i | 0 <= i < |items| ensures Trimmed(p, items[i], id) == items[i] { SharedIsUnchanged(p, items[i], id); }
      assert Trimmed(p, v, id).items == items;
    case Obj(m) =>
      var g := Governor(m, id);
      forall k | k in m ensures Trimmed(p, m[k], g) == m[k] { SharedIsUnchanged(p, m[k], g); }
      assert Trimmed(p, v, id).fields == m;
    case _ =>
  }

  /** A trimmed snapshot is nested no deeper. */
  lemma {:induction false} TrimmedStaysWithinBound(p: Policy, v: Json, id: string, other: string, levels: nat)
    requires TrimOk(p, v, id, levels)
    ensures TrimOk(p, Trimmed(p, v, id), other, levels)
  {
    match v
    case Arr(items) =>
      forall i | 0 <= i < |items|
        ensures TrimOk(p, Trimmed(p, items[i], id), other, levels - 1)
      {
        TrimmedStaysWithinBound(p, items[i], id, other, levels - 1);
      }
    case Obj(m) =>
      var g := Governor(m, id);
      var n := TrimmedFields(p, m, g);
      var h := Governor(n, other);
      forall k | k in Remaining(p, m, g)
        ensures TrimOk(p, Trimmed(p, m[k], g), h, levels - 1)
      {
        TrimmedStaysWithinBound(p, m[k], g, h, levels - 1);
      }
      hide Governor, Told, Allows, Trimmed;
      assert Obj(n).fields == n;
    case _ =>
  }
}
