/** Python's `sorted` on (key, payload) pairs whose keys are distinct: for such
 *  lists the tuple order is the order of the keys, and the result is the one
 *  strictly increasing arrangement of the same pairs. */
module Sorting {
  import opened Text

  predicate StrictlySorted<T>(s: seq<(string, T)>)
  {
    forall i, j :: 0 <= i < j < |s| ==> Less(s[i].0, s[j].0)
  }

  predicate DistinctKeys<T>(s: seq<(string, T)>)
  {
    forall i, j :: 0 <= i < j < |s| ==> s[i].0 != s[j].0
  }

  function Insert<T>(x: (string, T), s: seq<(string, T)>): (r: seq<(string, T)>)
    ensures multiset(r) == multiset(s) + multiset{x}
  {
    if s == [] then [x]
    else
      assert s == [s[0]] + s[1..];
      if Less(s[0].0, x.0) then [s[0]] + Insert(x, s[1..]) else [x] + s
  }

  function SortByKey<T>(s: seq<(string, T)>): (r: seq<(string, T)>)
    ensures multiset(r) == multiset(s)
  {
    if s == [] then []
    else
      assert s == [s[0]] + s[1..];
      Insert(s[0], SortByKey(s[1..]))
  }

  lemma {:induction false} InsertSorted<T>(x: (string, T), s: seq<(string, T)>)
    requires StrictlySorted(s)
    requires forall i :: 0 <= i < |s| ==> s[i].0 != x.0
    ensures StrictlySorted(Insert(x, s))
  {
    if s != [] {
      if Less(s[0].0, x.0) {
        InsertSorted(x, s[1..]);
        var r := Insert(x, s[1..]);
        forall j | 0 <= j < |r| ensures Less(s[0].0, r[j].0) {
          assert r[j] in multiset(r);
          if r[j] == x {
          } else {
            assert r[j] in s[1..];
          }
        }
      } else {
        LessTotal(x.0, s[0].0);
        forall j | 0 < j < |s| ensures Less(x.0, s[j].0) {
          LessTransitive(x.0, s[0].0, s[j].0);
        }
      }
    }
  }

  /** Sorting a list with distinct keys puts the keys in strictly increasing order. */
  lemma {:induction false} SortByKeySorted<T>(s: seq<(string, T)>)
    requires DistinctKeys(s)
    ensures StrictlySorted(SortByKey(s))
  {
    if s != [] {
      SortByKeySorted(s[1..]);
      var t := SortByKey(s[1..]);
      forall i | 0 <= i < |t| ensures t[i].0 != s[0].0 {
        assert t[i] in multiset(s[1..]);
      }
      InsertSorted(s[0], t);
    }
  }

  /** A strictly sorted list is determined by its elements. */
  lemma {:induction false} SortedUnique<T>(a: seq<(string, T)>, b: seq<(string, T)>)
    requires StrictlySorted(a) && StrictlySorted(b)
    requires forall x :: x in a <==> x in b
    ensures a == b
  {
    if b != [] { assert b[0] in a; }
    if a != [] {
      assert b != [] by { assert a[0] in b; }
      assert a[0] in b && b[0] in a;
      var j :| 0 <= j < |b| && b[j] == a[0];
      var i :| 0 <= i < |a| && a[i] == b[0];
      if j > 0 {
        if i > 0 { LessAsymmetric(a[0].0, a[i].0); } else { LessIrreflexive(a[0].0); }
      }
      forall x ensures x in a[1..] <==> x in b[1..] {
        if x in a[1..] {
          var k :| 1 <= k < |a| && a[k] == x;
          assert Less(a[0].0, x.0);
          LessIrreflexive(x.0);
          assert x in b;
        }
        if x in b[1..] {
          var k :| 1 <= k < |b| && b[k] == x;
          assert Less(b[0].0, x.0);
          LessIrreflexive(x.0);
          assert x in a;
        }
      }
      SortedUnique(a[1..], b[1..]);
      assert a == [a[0]] + a[1..] && b == [b[0]] + b[1..];
    }
  }
}
