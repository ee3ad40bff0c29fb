/**
 * JSON documents as internal/accountprivacy/privacy.go sees them: decoded
 * trees, an account's identity inside an object, and the ids a document names.
 */
module PrivacyDocument {
  import opened UuidText
  import opened Wrappers

  /**
   * Member names: those the redaction treats one by one, the parts of a calendar
   * (on none of its lists), and every other name. Constructors are the names in
   * camel case, but for `RegisteredBy` ("registered_by_principal_id"),
   * `KeepForYou` ("keep_for_you_percent"), `Outcome` ("result") and `Waiting`
   * ("wait").
   */
  datatype Key =
    | AccountId | Id | RegisteredBy | Posture | KeepForYou
    | HostReason | LatestReadings | NextCursor | ReadinessResources | PendingCheck | CheckResult | Outcome | NextAttemptAt
    | Resets | ResetPlan | ResetPolicy | RemainingFraction | UnavailableReasons | Available
    | LastProbeAt | LastProbeOk | CheckedAt | MeasuredUsage | CanTry | ReasonCodes | DisplayReason | State
    | Code | Availability | DetailsRedacted | Hosts | CostLimitSupported
    | Routable | Waiting | RunNowAllowed | Routing | Schedule
    | RequestedAt | ActorPrincipalId
    | CalendarPart(name: string)
    | Other(name: string)

  type Fields = map<Key, Json>

  datatype Json = Null | Bool(b: bool) | Num(n: real) | Str(s: string) | Arr(items: seq<Json>) | Obj(fields: Fields)

  /** Nesting deeper than this is refused. */
  const MAX_LEVELS: nat := 33

  const MAX_IDS: nat := 1024

  // ------------------------------------------------------------- identity

  function UuidAt(m: Fields, k: Key): Option<string> {
    if k in m && m[k].Str? && Uuid(m[k].s) then Some(m[k].s) else None
  }

  predicate Guard(m: Fields) { Posture in m && KeepForYou in m }

  /** `accountID`: the account an object itself belongs to, or "". */
  function AccountID(m: Fields): string {
    if UuidAt(m, AccountId).Some? then UuidAt(m, AccountId).value
    else if (RegisteredBy in m || Guard(m)) && UuidAt(m, Id).Some? then UuidAt(m, Id).value
    else ""
  }

  /** An object's own account, else the nearest enclosing one. */
  function Governor(m: Fields, id: string): string {
    if AccountID(m) != "" then AccountID(m) else id
  }

  // ------------------------------------------------- the ids a document names

  predicate Shallow(v: Json, levels: nat) {
    levels > 0 &&
    match v
    case Arr(items) => forall i :: 0 <= i < |items| ==> Shallow(items[i], levels - 1)
    case Obj(m) => forall k <- m :: Shallow(m[k], levels - 1)
    case _ => true
  }

  /** Every account id of the tree. */
  function Named(v: Json): set<string>
    decreases v, 1
  {
    match v
    case Arr(items) => NamedItems(items, |items|)
    case Obj(m) => OwnID(m) + NamedFields(m, m.Keys)
    case _ => {}
  }

  function OwnID(m: Fields): set<string> { if AccountID(m) != "" then {AccountID(m)} else {} }

  function NamedItems(items: seq<Json>, n: nat): set<string>
    requires n <= |items|
    decreases Arr(items), 0
  {
    set i, id | 0 <= i < n && id in Named(items[i]) :: id
  }

  function NamedFields(m: Fields, keys: set<Key>): set<string>
    requires keys <= m.Keys
    decreases Obj(m), 0
  {
    set k, id | k in keys && id in Named(m[k]) :: id
  }

  lemma {:induction false} NextItem(items: seq<Json>, n: nat)
    requires n < |items|
    ensures NamedItems(items, n + 1) == NamedItems(items, n) + Named(items[n])
    ensures NamedItems(items, n + 1) <= NamedItems(items, |items|)
  {
    hide Named;
  }

  lemma {:induction false} NextField(m: Fields, keys: set<Key>, k: Key)
    requires keys <= m.Keys && k in m
    ensures NamedFields(m, keys + {k}) == NamedFields(m, keys) + Named(m[k])
    ensures NamedFields(m, keys + {k}) <= NamedFields(m, m.Keys)
  {
    hide Named;
  }

  lemma {:induction false} Fewer(a: set<string>, b: set<string>)
    requires a <= b
    ensures |a| <= |b|
  {
    if a != b {
      var x :| x in b && x !in a;
      Fewer(a, b - {x});
    }
  }

  lemma {:induction false} NoItems(items: seq<Json>, seen: set<string>)
    ensures seen + NamedItems(items, 0) == seen
  {}

  lemma {:induction false} ItemStep(items: seq<Json>, i: nat, seen: set<string>)
    requires i < |items|
    ensures seen + NamedItems(items, i) + Named(items[i]) == seen + NamedItems(items, i + 1)
    ensures |seen + NamedItems(items, i + 1)| <= |seen + NamedItems(items, |items|)|
  {
    hide Named, NamedItems;
    NextItem(items, i);
    Fewer(seen + NamedItems(items, i + 1), seen + NamedItems(items, |items|));
  }

  lemma {:induction false} FieldStep(m: Fields, left: set<Key>, key: Key, seen: set<string>)
    requires key in left && left <= m.Keys
    ensures seen + NamedFields(m, m.Keys - left) + Named(m[key]) == seen + NamedFields(m, m.Keys - (left - {key}))
    ensures |seen + NamedFields(m, m.Keys - (left - {key}))| <= |seen + NamedFields(m, m.Keys)|
  {
    hide Named, NamedFields;
    NextField(m, m.Keys - left, key);
    assert m.Keys - left + {key} == m.Keys - (left - {key});
    Fewer(seen + NamedFields(m, m.Keys - (left - {key})), seen + NamedFields(m, m.Keys));
  }

  /** `IDs`' walk: adds the ids of a subtree to those seen. */
  method CollectIDs(v: Json, seen: set<string>, levels: nat) returns (r: Option<set<string>>)
    ensures r.Some? <==> Shallow(v, levels) && |seen + Named(v)| <= MAX_IDS
    ensures r.Some? ==> r.value == seen + Named(v)
    decreases levels, 1
  {
    hide NamedItems, NamedFields, AccountID;
    if levels == 0 { return None; }
    match v {
      case Arr(items) => r := CollectItems(items, seen, levels - 1);
      case Obj(m) =>
        r := CollectFields(m, seen + OwnID(m), levels - 1);
        assert seen + OwnID(m) + NamedFields(m, m.Keys) == seen + Named(v);
      case _ => r := if |seen| > MAX_IDS then None else Some(seen);
    }
    assert v.Null? || v.Bool? || v.Num? || v.Str? ==> seen + Named(v) == seen;
  }

  method CollectItems(items: seq<Json>, seen: set<string>, levels: nat) returns (r: Option<set<string>>)
    ensures r.Some? <==> (forall i :: 0 <= i < |items| ==> Shallow(items[i], levels)) && |seen + NamedItems(items, |items|)| <= MAX_IDS
    ensures r.Some? ==> r.value == seen + NamedItems(items, |items|)
    decreases levels, 2
  {
    hide Named, Shallow, NamedItems;
    var all := seen;
    NoItems(items, seen);
    for i := 0 to |items|
      invariant forall j :: 0 <= j < i ==> Shallow(items[j], levels)
      invariant all == seen + NamedItems(items, i)
    {
      ItemStep(items, i, seen);
      assert all + Named(items[i]) == seen + NamedItems(items, i + 1);
      var next := CollectIDs(items[i], all, levels);
      if next.None? { return None; }
      all := next.value;
    }
    r := if |all| > MAX_IDS then None else Some(all);
  }

  method CollectFields(m: Fields, seen: set<string>, levels: nat) returns (r: Option<set<string>>)
    ensures r.Some? <==> (forall k <- m :: Shallow(m[k], levels)) && |seen + NamedFields(m, m.Keys)| <= MAX_IDS
    ensures r.Some? ==> r.value == seen + NamedFields(m, m.Keys)
    decreases levels, 2
  {
    assert NamedFields(m, {}) == {} && seen + {} == seen;
    hide Named, Shallow, NamedFields;
    var all, left := seen, m.Keys;
    assert m.Keys - left == {};
    while left != {}
      invariant left <= m.Keys
      invariant forall k :: k in m && k !in left ==> Shallow(m[k], levels)
      invariant all == seen + NamedFields(m, m.Keys - left)
      decreases left
    {
      var key :| key in left;
      var next := CollectIDs(m[key], all, levels);
      FieldStep(m, left, key, seen);
      if next.None? { return None; }
      all := next.value;
      left := left - {key};
    }
    assert m.Keys - left == m.Keys;
    r := if |all| > MAX_IDS then None else Some(all);
  }

  /** `IDs`: every account id of a document within the bounds, and the fallback. */
  method IDs(v: Json, fallback: string) returns (r: Option<set<string>>)
    ensures var all := Named(v) + (if fallback != "" then {fallback} else {});
            r == if Shallow(v, 33) && |all| <= 1024 then Some(all) else None
  {
    var start: set<string> := if fallback != "" then {fallback} else {};
    r := CollectIDs(v, start, MAX_LEVELS);
    assert start + Named(v) == Named(v) + start;
  }
}
