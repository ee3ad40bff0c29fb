/** Identifier order: the byte order in which windows are locked and updated. */
module IdOrder {

  predicate LessEq(a: string, b: string) {
    a == "" || (b != "" && (a[0] < b[0] || (a[0] == b[0] && LessEq(a[1..], b[1..]))))
  }

  function Insert<T>(s: seq<T>, key: T -> string, x: T): seq<T> {
    if s == [] || LessEq(key(x), key(s[0])) then [x] + s else [s[0]] + Insert(s[1..], key, x)
  }

  function Sort<T>(s: seq<T>, key: T -> string): seq<T> {
    if s == [] then [] else Insert(Sort(s[1..], key), key, s[0])
  }

  lemma {:induction false} InsertAdds<T>(s: seq<T>, key: T -> string, x: T)
    ensures multiset(Insert(s, key, x)) == multiset(s) + multiset{x}
  {
    if s != [] && !LessEq(key(x), key(s[0])) {
      InsertAdds(s[1..], key, x);
      assert s == [s[0]] + s[1..];
    }
  }

  /** Sorting permutes. */
  lemma {:induction false} SortPermutes<T>(s: seq<T>, key: T -> string)
    ensures multiset(Sort(s, key)) == multiset(s)
  {
    if s != [] {
      SortPermutes(s[1..], key);
      InsertAdds(Sort(s[1..], key), key, s[0]);
      assert s == [s[0]] + s[1..];
    }
  }

  function InsertBy<T>(s: seq<T>, le: (T, T) -> bool, x: T): seq<T> {
    if s == [] || le(x, s[0]) then [x] + s else [s[0]] + InsertBy(s[1..], le, x)
  }

  /** Sorting by a comparison. */
  function SortBy<T>(s: seq<T>, le: (T, T) -> bool): seq<T> {
    if s == [] then [] else InsertBy(SortBy(s[1..], le), le, s[0])
  }

  lemma {:induction false} InsertByAdds<T>(s: seq<T>, le: (T, T) -> bool, x: T)
    ensures multiset(InsertBy(s, le, x)) == multiset(s) + multiset{x}
  {
    if s != [] && !le(x, s[0]) {
      InsertByAdds(s[1..], le, x);
      assert s == [s[0]] + s[1..];
    }
  }

  lemma {:induction false} SortByPermutes<T>(s: seq<T>, le: (T, T) -> bool)
    ensures multiset(SortBy(s, le)) == multiset(s)
    ensures forall x :: x in SortBy(s, le) <==> x in s
  {
    if s != [] {
      SortByPermutes(s[1..], le);
      InsertByAdds(SortBy(s[1..], le), le, s[0]);
      assert s == [s[0]] + s[1..];
    }
    assert forall x :: x in SortBy(s, le) <==> x in multiset(SortBy(s, le));
    assert forall x :: x in s <==> x in multiset(s);
  }

  // ------------------------------------------------------------ in order

  lemma {:induction false} LessEqTotal(a: string, b: string)
    ensures LessEq(a, b) || LessEq(b, a)
  {
    if a != "" && b != "" && a[0] == b[0] { LessEqTotal(a[1..], b[1..]); }
  }

  lemma {:induction false} LessEqChains(a: string, b: string, c: string)
    requires LessEq(a, b) && LessEq(b, c)
    ensures LessEq(a, c)
  {
    if a != "" && a[0] == b[0] && b[0] == c[0] { LessEqChains(a[1..], b[1..], c[1..]); }
  }

  ghost predicate TotalOrder<T(!new)>(le: (T, T) -> bool) {
    && (forall a, b :: le(a, b) || le(b, a))
    && (forall a, b, c :: le(a, b) && le(b, c) ==> le(a, c))
  }

  ghost predicate Ordered<T(!new)>(s: seq<T>, le: (T, T) -> bool) {
    forall i, j :: 0 <= i < j < |s| ==> le(s[i], s[j])
  }

  lemma {:induction false} InsertByOrders<T(!new)>(s: seq<T>, le: (T, T) -> bool, x: T)
    requires TotalOrder(le) && Ordered(s, le)
    ensures Ordered(InsertBy(s, le, x), le)
    ensures forall y <- InsertBy(s, le, x) :: y == x || y in s
  {
    if s == [] {
    } else if le(x, s[0]) {
      var r := [x] + s;
      forall j | 0 < j < |r| ensures le(x, r[j]) {
        if j > 1 { assert le(s[0], s[j - 1]); }
      }
    } else {
      assert forall i :: 0 <= i < |s[1..]| ==> s[1..][i] == s[i + 1];
      InsertByOrders(s[1..], le, x);
      var rest := InsertBy(s[1..], le, x);
      assert le(s[0], x);
      forall y | y in rest ensures le(s[0], y) {
        if y != x { var k :| 0 <= k < |s[1..]| && s[1..][k] == y; assert le(s[0], s[k + 1]); }
      }
      var r := [s[0]] + rest;
      forall j | 0 < j < |r| ensures le(s[0], r[j]) { assert r[j] == rest[j - 1] && rest[j - 1] in rest; }
    }
  }

  /** Sorting by a total order puts every element before those it precedes. */
  lemma {:induction false} SortByOrders<T(!new)>(s: seq<T>, le: (T, T) -> bool)
    requires TotalOrder(le)
    ensures Ordered(SortBy(s, le), le)
  {
    hide TotalOrder, Ordered;
    if s == [] {
      NothingOrdered(le);
    } else {
      SortByOrders(s[1..], le);
      InsertByOrders(SortBy(s[1..], le), le, s[0]);
    }
  }

  lemma {:induction false} NothingOrdered<T(!new)>(le: (T, T) -> bool)
    ensures Ordered([], le)
  {}
}
