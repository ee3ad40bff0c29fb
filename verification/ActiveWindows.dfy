/** Which windows bind now (`activeWindows` in internal/agentaccounts/eligibility.go). */
module ActiveWindows {
  import opened Wrappers
  import opened Pace
  import IdOrder

  function Key(w: Window): string { w.kind + "/" + w.bucket }

  /** The newest measured window of a key; the first one wins a tie. */
  function Newest(windows: seq<Window>, key: string): Option<Window> {
    if windows == [] then None
    else
      var w := windows[|windows| - 1];
      var prior := Newest(windows[..|windows| - 1], key);
      if w.readAt.Some? && Key(w) == key
         && (prior.None? || prior.value.readAt.None? || w.readAt.value > prior.value.readAt.value)
      then Some(w) else prior
  }

  lemma {:induction false} NewestIsMeasured(windows: seq<Window>, key: string)
    ensures Newest(windows, key).Some? ==>
              var n := Newest(windows, key).value;
              n in windows && n.readAt.Some? && Key(n) == key
              && forall w <- windows :: w.readAt.Some? && Key(w) == key ==> w.readAt.value <= n.readAt.value
    ensures Newest(windows, key).None? ==> forall w <- windows :: w.readAt.None? || Key(w) != key
  {
    hide Key;
    if windows != [] {
      var front := windows[..|windows| - 1];
      NewestIsMeasured(front, key);
      assert windows == front + [windows[|windows| - 1]];
    }
  }

  predicate ManualNow(w: Window, now: int) { w.readAt.None? && w.startsAt <= now < w.endsAt }

  /** A newest window that still stands: neither replaced nor past its reset. */
  predicate Standing(w: Window, now: int) { !w.retired && now < w.endsAt }

  /** A fresh vendor denial. */
  predicate Denies(w: Window, now: int) {
    Standing(w, now) && !w.allowed && w.readAt.Some? && now - w.readAt.value <= FRESH
  }

  ghost predicate IsNewest(windows: seq<Window>, w: Window) {
    Newest(windows, Key(w)) == Some(w)
  }

  ghost predicate AnyDenial(windows: seq<Window>, now: int) {
    exists w <- windows :: IsNewest(windows, w) && Denies(w, now)
  }

  /** Every standing newest window allows use and has begun. */
  ghost predicate Usable(windows: seq<Window>, now: int) {
    forall w <- windows :: IsNewest(windows, w) && Standing(w, now) ==> w.allowed && w.startsAt <= now
  }

  /** Of the windows read, those that bind now: without a fresh denial the manual ones, and the newest ones if all are usable. */
  ghost predicate Binds(windows: seq<Window>, w: Window, now: int) {
    && !AnyDenial(windows, now) && w in windows
    && (ManualNow(w, now) || (Usable(windows, now) && IsNewest(windows, w) && Standing(w, now)))
  }

  ghost predicate NoneBinds(windows: seq<Window>, now: int) { forall w :: !Binds(windows, w, now) }

  /** The `latest` map of the first loop. */
  method LatestByKey(windows: seq<Window>) returns (latest: map<string, Window>)
    ensures forall key :: key in latest <==> Newest(windows, key).Some?
    ensures forall key :: key in latest ==> latest[key] == Newest(windows, key).value
  {
    hide Key;
    latest := map[];
    for i := 0 to |windows|
      invariant forall key :: key in latest <==> Newest(windows[..i], key).Some?
      invariant forall key :: key in latest ==> latest[key] == Newest(windows[..i], key).value
    {
      var w := windows[i];
      assert windows[..i + 1][..i] == windows[..i];
      if w.readAt.Some? {
        var key := Key(w);
        NewestIsMeasured(windows[..i], key);
        if key !in latest || latest[key].readAt.None? || w.readAt.value > latest[key].readAt.value {
          latest := latest[key := w];
        }
      }
    }
    assert windows[..|windows|] == windows;
  }

  /** The keys in byte order, so the outcome does not depend on map iteration. */
  method SortedKeys(latest: map<string, Window>) returns (keys: seq<string>)
    ensures forall key :: key in keys <==> key in latest
  {
    var left := latest.Keys;
    keys := [];
    while left != {}
      invariant left <= latest.Keys
      invariant forall key :: key in keys <==> key in latest && key !in left
      decreases left
    {
      var key :| key in left;
      left := left - {key};
      keys := keys + [key];
    }
    var id := (k: string) => k;
    IdOrder.SortPermutes(keys, id);
    assert forall key :: key in IdOrder.Sort(keys, id) <==> key in multiset(IdOrder.Sort(keys, id));
    keys := IdOrder.Sort(keys, id);
  }

  /**
   * `activeWindows`: nothing under a fresh denial; otherwise the manual windows
   * open now, plus every standing newest measured window when all are usable.
   */
  method BindingNow(windows: seq<Window>, now: int) returns (active: seq<Window>)
    ensures forall w :: w in active <==> Binds(windows, w, now)
  {
    hide Key, Newest, Standing;
    active := [];
    var latest := LatestByKey(windows);
    NewestMembers(windows, latest);
    var keys := SortedKeys(latest);
    var usable := true;
    var kept: seq<Window> := [];
    for i := 0 to |keys|
      invariant forall k :: 0 <= k < i ==> !Denies(latest[keys[k]], now)
      invariant usable <==> forall k :: 0 <= k < i ==> StandingAllows(latest[keys[k]], now)
      invariant forall w :: w in kept <==> exists k :: 0 <= k < i && latest[keys[k]] == w && Standing(w, now)
    {
      var w := latest[keys[i]];
      assert keys[i] in latest;
      StandingMeans(w, now);
      if w.retired { continue; }
      if now >= w.endsAt { continue; }
      if !w.allowed && now - w.readAt.value <= FRESH {
        assert IsNewest(windows, w) && Denies(w, now);
        return;
      }
      if !w.allowed || now < w.startsAt { usable := false; }
      kept := kept + [w];
    }
    KeptIsStanding(windows, latest, keys, kept, usable, now);
    for i := 0 to |windows|
      invariant forall w :: w in active <==> w in windows[..i] && ManualNow(w, now)
    {
      var w := windows[i];
      if w.readAt.None? && w.startsAt <= now && now < w.endsAt { active := active + [w]; }
    }
    assert windows[..|windows|] == windows;
    if usable { active := active + kept; }
  }

  predicate StandingAllows(w: Window, now: int) {
    Standing(w, now) ==> w.allowed && w.startsAt <= now
  }

  lemma {:induction false} StandingMeans(w: Window, now: int)
    ensures Standing(w, now) <==> !w.retired && now < w.endsAt
  {}

  /** `latest` lists exactly the newest windows. */
  ghost predicate ListsNewest(windows: seq<Window>, latest: map<string, Window>) {
    && (forall key :: key in latest ==>
          latest[key] in windows && latest[key].readAt.Some? && IsNewest(windows, latest[key]) && Key(latest[key]) == key)
    && (forall w <- windows :: IsNewest(windows, w) ==> Key(w) in latest && latest[Key(w)] == w)
  }

  lemma {:induction false} NewestMembers(windows: seq<Window>, latest: map<string, Window>)
    requires forall key :: key in latest <==> Newest(windows, key).Some?
    requires forall key :: key in latest ==> latest[key] == Newest(windows, key).value
    ensures ListsNewest(windows, latest)
  {
    hide Key;
    forall key | key in latest
      ensures latest[key] in windows && latest[key].readAt.Some? && Key(latest[key]) == key
    {
      NewestIsMeasured(windows, key);
    }
  }

  lemma {:induction false} KeptIsStanding(windows: seq<Window>, latest: map<string, Window>, keys: seq<string>,
                                          kept: seq<Window>, usable: bool, now: int)
    requires ListsNewest(windows, latest) && forall key :: key in keys <==> key in latest
    requires forall k :: 0 <= k < |keys| ==> !Denies(latest[keys[k]], now)
    requires usable <==> forall k :: 0 <= k < |keys| ==> StandingAllows(latest[keys[k]], now)
    requires forall w :: w in kept <==> exists k :: 0 <= k < |keys| && latest[keys[k]] == w && Standing(w, now)
    ensures !AnyDenial(windows, now) && (usable <==> Usable(windows, now))
    ensures forall w :: w in kept <==> w in windows && IsNewest(windows, w) && Standing(w, now)
  {
    hide Key, Standing, IsNewest, Denies;
    forall w | w in windows && IsNewest(windows, w)
      ensures exists k :: 0 <= k < |keys| && latest[keys[k]] == w
    {
      assert Key(w) in keys;
      var k :| 0 <= k < |keys| && keys[k] == Key(w);
      assert latest[keys[k]] == w;
    }
    forall k | 0 <= k < |keys|
      ensures latest[keys[k]] in windows && IsNewest(windows, latest[keys[k]])
    {
      assert keys[k] in latest;
    }
  }

  /** `allowanceHeadroom`: something binds, and all of it fits one more unit. */
  method AllowanceHeadroom(windows: seq<Window>, now: int) returns (open: bool)
    ensures open <==> !NoneBinds(windows, now) && forall w :: Binds(windows, w, now) ==> Fits(w, now, 1).Some?
  {
    hide Fits, Binds;
    var binding := BindingNow(windows, now);
    if binding == [] { return false; }
    assert binding[0] in binding;
    for i := 0 to |binding|
      invariant forall w <- binding[..i] :: Fits(w, now, 1).Some?
    {
      assert binding[..i + 1] == binding[..i] + [binding[i]];
      if Fits(binding[i], now, 1).None? {
        assert binding[i] in binding;
        return false;
      }
    }
    assert binding[..|binding|] == binding;
    open := true;
  }
}
