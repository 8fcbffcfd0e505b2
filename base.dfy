/** Shared result types: the handlers of the system answer either with a value or
    with an HTTP status code carrying an error message. */
module Base {

  datatype Option<+T> = None | Some(value: T)

  /** Outcome of a handler: a success value, or the HTTP status it answers with. */
  datatype Outcome<+T> = Ok(value: T) | Fail(status: int, message: string)

  const BadRequest := 400
  const Unauthorized := 401
  const Forbidden := 403
  const NotFound := 404
  const Conflict := 409
  const PayloadTooLarge := 413
  const ServerError := 500
  const Unavailable := 503

  /** Number of elements of `s` that satisfy `p`. */
  function CountWhere<T>(s: seq<T>, p: T -> bool): (n: nat)
    ensures n <= |s|
  {
    if s == [] then 0 else CountWhere(s[..|s| - 1], p) + (if p(s[|s| - 1]) then 1 else 0)
  }

  /** Elements of `s` that satisfy `p`, in their original order. */
  function FilterSeq<T>(s: seq<T>, p: T -> bool): (r: seq<T>)
    ensures |r| <= |s|
    ensures forall x :: x in r ==> x in s && p(x)
  {
    if s == [] then [] else FilterSeq(s[..|s| - 1], p) + (if p(s[|s| - 1]) then [s[|s| - 1]] else [])
  }

  /** Filtering works element by element, so it distributes over concatenation. */
  lemma {:induction false} FilterSeqConcat<T>(a: seq<T>, b: seq<T>, p: T -> bool)
    ensures FilterSeq(a + b, p) == FilterSeq(a, p) + FilterSeq(b, p)
    decreases |b|
  {
    if b == [] {
      assert a + b == a;
    } else {
      var init := b[..|b| - 1];
      assert (a + b)[..|a + b| - 1] == a + init;
      assert (a + b)[|a + b| - 1] == b[|b| - 1];
      FilterSeqConcat(a, init, p);
    }
  }

  /** Some element satisfies `p` exactly when the count is positive. */
  lemma {:induction false} CountWherePositive<T>(s: seq<T>, p: T -> bool)
    ensures CountWhere(s, p) > 0 <==> exists i :: 0 <= i < |s| && p(s[i])
  {
    if s != [] {
      var init := s[..|s| - 1];
      CountWherePositive(init, p);
      if exists i :: 0 <= i < |s| && p(s[i]) {
        var i :| 0 <= i < |s| && p(s[i]);
        if i < |init| { assert p(init[i]); }
      }
      if exists i :: 0 <= i < |init| && p(init[i]) {
        var i :| 0 <= i < |init| && p(init[i]);
        assert p(s[i]);
      }
    }
  }
  lemma {:induction false} CountWhereConcat<T>(a: seq<T>, b: seq<T>, p: T -> bool)
    ensures CountWhere(a + b, p) == CountWhere(a, p) + CountWhere(b, p)
  {
    if b != [] {
      var init := b[..|b| - 1];
      assert (a + b)[..|a + b| - 1] == a + init;
      assert (a + b)[|a + b| - 1] == b[|b| - 1];
      CountWhereConcat(a, init, p);
    } else {
      assert a + b == a;
    }
  }

  /** A count does not depend on the order of the elements. */
  lemma {:induction false} CountWherePermutation<T>(s: seq<T>, t: seq<T>, p: T -> bool)
    requires multiset(s) == multiset(t)
    ensures CountWhere(s, p) == CountWhere(t, p)
    decreases |s|
  {
    if s == [] {
      assert |t| == |multiset(t)| == 0;
    } else {
      var init, x := s[..|s| - 1], s[|s| - 1];
      assert s == init + [x];
      assert x in multiset(t);
      var j :| 0 <= j < |t| && t[j] == x;
      var rest := t[..j] + t[j + 1..];
      MultisetRemove(t, j);
      MultisetCancel(multiset(init), multiset(rest), x);
      CountWherePermutation(init, rest, p);
      assert t == t[..j] + [x] + t[j + 1..];
      CountWhereConcat(t[..j] + [x], t[j + 1..], p);
      CountWhereConcat(t[..j], [x], p);
      CountWhereConcat(t[..j], t[j + 1..], p);
      assert [x][..0] == [];
    }
  }

  function Min(a: int, b: int): int { if a <= b then a else b }

  /** Taking out the element at `j` removes exactly one occurrence of it. */
  lemma MultisetRemove<T>(t: seq<T>, j: nat)
    requires j < |t|
    ensures multiset(t) == multiset(t[..j] + t[j + 1..]) + multiset{t[j]}
  {
    assert t == t[..j] + [t[j]] + t[j + 1..];
  }

  lemma MultisetCancel<T>(a: multiset<T>, b: multiset<T>, x: T)
    requires a + multiset{x} == b + multiset{x}
    ensures a == b
  {
    assert a == a + multiset{x} - multiset{x};
    assert b == b + multiset{x} - multiset{x};
  }

  /** Images under a partial map `f` of two permutations of each other are permutations
      of each other: `xs` and `ys` hold what `f` gives for each element of `s` and `t`. */
  lemma {:induction false} ImagePermutation<A, B>(s: seq<A>, t: seq<A>, xs: seq<B>, ys: seq<B>, f: A -> Option<B>)
    requires multiset(s) == multiset(t)
    requires |xs| == |s| && |ys| == |t|
    requires forall i :: 0 <= i < |s| ==> f(s[i]) == Some(xs[i])
    requires forall i :: 0 <= i < |t| ==> f(t[i]) == Some(ys[i])
    ensures multiset(xs) == multiset(ys)
    decreases |s|
  {
    if s == [] {
      assert |t| == |multiset(t)| == 0;
    } else {
      var n := |s| - 1;
      var init, x := s[..n], s[n];
      assert s == init + [x];
      assert x in multiset(t);
      var j :| 0 <= j < |t| && t[j] == x;
      var t' := t[..j] + t[j + 1..];
      var ys' := ys[..j] + ys[j + 1..];
      MultisetRemove(t, j);
      MultisetRemove(ys, j);
      MultisetCancel(multiset(init), multiset(t'), x);
      forall i | 0 <= i < |t'| ensures f(t'[i]) == Some(ys'[i]) {
        if i < j { assert t'[i] == t[i] && ys'[i] == ys[i]; }
        else { assert t'[i] == t[i + 1] && ys'[i] == ys[i + 1]; }
      }
      ImagePermutation(init, t', xs[..n], ys', f);
      assert xs == xs[..n] + [xs[n]];
      assert xs[n] == ys[j];
    }
  }
}
