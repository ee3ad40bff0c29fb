/** Sorting by time and then by number, newest first, as every timeline query and `sort.Slice` call does. */
module NewestFirst {

  datatype Stamp = Stamp(at: int, id: nat)

  predicate Later(a: Stamp, b: Stamp) {
    a.at > b.at || (a.at == b.at && a.id > b.id)
  }

  ghost predicate Descending<T(!new)>(s: seq<T>, key: T -> Stamp) {
    forall i, j :: 0 <= i < j < |s| ==> Later(key(s[i]), key(s[j]))
  }

  ghost predicate DistinctKeys<T(!new)>(s: seq<T>, key: T -> Stamp) {
    forall i, j :: 0 <= i < j < |s| ==> key(s[i]).id != key(s[j]).id
  }

  function Insert<T>(s: seq<T>, key: T -> Stamp, x: T): seq<T> {
    if s == [] || Later(key(x), key(s[0])) then [x] + s
    else [s[0]] + Insert(s[1..], key, x)
  }

  function Sort<T>(s: seq<T>, key: T -> Stamp): (r: seq<T>)
    decreases |s|
  {
    if s == [] then [] else Insert(Sort(s[1..], key), key, s[0])
  }

  lemma {:induction false} InsertSorts<T(!new)>(s: seq<T>, key: T -> Stamp, x: T)
    requires Descending(s, key)
    requires forall y <- s :: key(y).id != key(x).id
    ensures Descending(Insert(s, key, x), key)
    ensures forall y :: y in Insert(s, key, x) <==> y == x || y in s
  {
    if s == [] || Later(key(x), key(s[0])) {
      var r := [x] + s;
      forall i, j | 0 <= i < j < |r|
        ensures Later(key(r[i]), key(r[j]))
      {
        if i == 0 && j > 1 { assert Later(key(s[0]), key(s[j - 1])); }
      }
    } else {
      var rest := Insert(s[1..], key, x);
      InsertSorts(s[1..], key, x);
      assert s == [s[0]] + s[1..];
      var r := [s[0]] + rest;
      forall i, j | 0 <= i < j < |r|
        ensures Later(key(r[i]), key(r[j]))
      {
        if i == 0 {
          assert r[j] in rest;
        } else {
          assert r[i] == rest[i - 1] && r[j] == rest[j - 1];
        }
      }
    }
  }

  /** Sorting keeps exactly the members and leaves them strictly newest first. */
  lemma {:induction false} SortSorts<T(!new)>(s: seq<T>, key: T -> Stamp)
    requires DistinctKeys(s, key)
    ensures Descending(Sort(s, key), key)
    ensures forall y :: y in Sort(s, key) <==> y in s
    decreases |s|
  {
    if s != [] {
      SortSorts(s[1..], key);
      assert s == [s[0]] + s[1..];
      forall y | y in Sort(s[1..], key)
        ensures key(y).id != key(s[0]).id
      {
        var k :| 0 <= k < |s[1..]| && s[1..][k] == y;
        assert s[k + 1] == y;
      }
      InsertSorts(Sort(s[1..], key), key, s[0]);
    }
  }

  /** A strictly sorted sequence is determined by its members. */
  lemma {:induction false} SortedIsUnique<T(!new)>(a: seq<T>, b: seq<T>, key: T -> Stamp)
    requires Descending(a, key) && Descending(b, key)
    requires forall y :: y in a <==> y in b
    ensures a == b
    decreases |a|
  {
    assert b != [] ==> b[0] in b;
    if a != [] {
      assert a[0] in b;
      assert b[0] in a;
      var k :| 0 <= k < |b| && b[k] == a[0];
      var m :| 0 <= m < |a| && a[m] == b[0];
      assert a[0] == b[0];
      assert a == [a[0]] + a[1..] && b == [b[0]] + b[1..];
      forall y
        ensures y in a[1..] <==> y in b[1..]
      {
        TailMembers(a, key, y);
        TailMembers(b, key, y);
      }
      SortedIsUnique(a[1..], b[1..], key);
    }
  }

  lemma {:induction false} TailMembers<T(!new)>(a: seq<T>, key: T -> Stamp, y: T)
    requires a != [] && Descending(a, key)
    ensures y in a[1..] <==> y in a && y != a[0]
  {
    assert a == [a[0]] + a[1..];
    if y in a[1..] {
      var k :| 0 <= k < |a[1..]| && a[1..][k] == y;
      assert Later(key(a[0]), key(a[k + 1]));
    }
  }
}
