/** A stable insertion sort by a caller-supplied "comes no later than" relation.
    It stands for `Array.prototype.sort` with a consistent comparator (stable since
    ES2019) and for SQL `ORDER BY`, whose order among ties the model fixes to input order. */
module Sorting {

  /** `le` is total and transitive on the values of `s`. */
  ghost predicate PreorderOn<T>(s: seq<T>, le: (T, T) -> bool)
  {
    && (forall x, y :: x in s && y in s ==> le(x, y) || le(y, x))
    && (forall x, y, z :: x in s && y in s && z in s && le(x, y) && le(y, z) ==> le(x, z))
  }

  ghost predicate SortedBy<T>(s: seq<T>, le: (T, T) -> bool)
  {
    forall i, j :: 0 <= i < j < |s| ==> le(s[i], s[j])
  }

  /** Places `x` after every element that comes no later than it (keeps ties in order). */
  function Insert<T>(x: T, s: seq<T>, le: (T, T) -> bool): (r: seq<T>)
    ensures |r| == |s| + 1
    ensures multiset(r) == multiset(s) + multiset{x}
  {
    if s == [] then [x]
    else if le(s[0], x) then
      assert s == [s[0]] + s[1..];
      [s[0]] + Insert(x, s[1..], le)
    else [x] + s
  }

  function SortBy<T>(s: seq<T>, le: (T, T) -> bool): (r: seq<T>)
    ensures |r| == |s|
    ensures multiset(r) == multiset(s)
  {
    if s == [] then []
    else
      assert s == s[..|s| - 1] + [s[|s| - 1]];
      Insert(s[|s| - 1], SortBy(s[..|s| - 1], le), le)
  }

  lemma {:induction false} InsertSorted<T>(x: T, s: seq<T>, le: (T, T) -> bool)
    requires SortedBy(s, le)
    requires PreorderOn(s + [x], le)
    ensures SortedBy(Insert(x, s, le), le)
  {
    if s != [] && le(s[0], x) {
      var t := s[1..];
      assert PreorderOn(t + [x], le) by {
        forall y | y in t + [x] ensures y in s + [x] {
          if y in t { assert y in s; }
        }
      }
      InsertSorted(x, t, le);
      var r := Insert(x, s, le);
      assert r == [s[0]] + Insert(x, t, le);
      forall i, j | 0 <= i < j < |r| ensures le(r[i], r[j]) {
        if i == 0 {
          var y := r[j];
          assert y in multiset(Insert(x, t, le));
          assert y in multiset(t) + multiset{x};
          assert y == x || y in t;
          if y != x {
            var k :| 0 <= k < |t| && t[k] == y;
            assert s[k + 1] == y;
          }
          assert s[0] in s + [x] && y in s + [x];
        }
      }
    } else if s != [] {
      var r := Insert(x, s, le);
      assert le(x, s[0]) by {
        assert s[0] in s + [x] && x in s + [x];
      }
      forall i, j | 0 <= i < j < |r| ensures le(r[i], r[j]) {
        if i == 0 {
          assert r[j] == s[j - 1];
          if j > 1 {
            assert le(s[0], s[j - 1]);
            assert x in s + [x] && s[0] in s + [x] && s[j - 1] in s + [x];
          }
        } else {
          assert r[i] == s[i - 1] && r[j] == s[j - 1];
        }
      }
    }
  }

  /** The sorted sequence is ordered by `le` whenever `le` is a total preorder on it. */
  lemma {:induction false} SortBySorted<T>(s: seq<T>, le: (T, T) -> bool)
    requires PreorderOn(s, le)
    ensures SortedBy(SortBy(s, le), le)
  {
    if s != [] {
      var init := s[..|s| - 1];
      var x := s[|s| - 1];
      assert forall y :: y in init ==> y in s;
      SortBySorted(init, le);
      var sorted := SortBy(init, le);
      assert PreorderOn(sorted + [x], le) by {
        forall y | y in sorted + [x] ensures y in s {
          if y in sorted {
            assert y in multiset(sorted);
            assert y in multiset(init);
          }
        }
      }
      InsertSorted(x, sorted, le);
    }
  }
}
