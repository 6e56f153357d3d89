/** Order-preserving selection over sequences: the model of a pandas boolean
    mask (`df[mask]`) and of a Python list comprehension with an `if`. */
module Sequences {

  /** `s` can be obtained from `t` by deleting elements, order kept. */
  predicate IsSubsequence<T(==,!new)>(s: seq<T>, t: seq<T>)
    decreases |t|
  {
    || s == []
    || (t != [] && ((s[0] == t[0] && IsSubsequence(s[1..], t[1..])) || IsSubsequence(s, t[1..])))
  }

  /** The elements of `xs` that satisfy `keep`, in their original order. */
  function Where<T(==,!new)>(xs: seq<T>, keep: T -> bool): (r: seq<T>)
    ensures |r| <= |xs|
    decreases |xs|
  {
    if xs == [] then []
    else if keep(xs[0]) then [xs[0]] + Where(xs[1..], keep)
    else Where(xs[1..], keep)
  }

  /** The selection is an order-preserving subsequence of `xs` and holds
      exactly the elements of `xs` that satisfy `keep`. */
  lemma {:induction false} WhereSpec<T(!new)>(xs: seq<T>, keep: T -> bool)
    ensures IsSubsequence(Where(xs, keep), xs)
    ensures forall x :: x in Where(xs, keep) <==> x in xs && keep(x)
    decreases |xs|
  {
    if xs != [] {
      WhereSpec(xs[1..], keep);
      var r := Where(xs, keep);
      if keep(xs[0]) {
        assert r[1..] == Where(xs[1..], keep);
      } else if r != [] {
        assert r[0] in Where(xs[1..], keep);
      }
    }
  }

  /** Selecting from an extended sequence extends the selection. */
  lemma {:induction false} WhereAppend<T(!new)>(xs: seq<T>, x: T, keep: T -> bool)
    ensures Where(xs + [x], keep) == Where(xs, keep) + (if keep(x) then [x] else [])
    decreases |xs|
  {
    if xs != [] {
      assert (xs + [x])[1..] == xs[1..] + [x];
      WhereAppend(xs[1..], x, keep);
    }
  }

  /** Selection only looks at the predicate on the elements present. */
  lemma {:induction false} WhereCongruent<T(!new)>(xs: seq<T>, p: T -> bool, q: T -> bool)
    requires forall x :: x in xs ==> p(x) == q(x)
    ensures Where(xs, p) == Where(xs, q)
    decreases |xs|
  {
    if xs != [] {
      assert forall x :: x in xs[1..] ==> x in xs;
      WhereCongruent(xs[1..], p, q);
    }
  }

  /** Two selections in a row are one selection by the conjunction. */
  lemma {:induction false} WhereWhere<T(!new)>(xs: seq<T>, p: T -> bool, q: T -> bool, pq: T -> bool)
    requires forall x :: x in xs ==> pq(x) == (p(x) && q(x))
    ensures Where(Where(xs, p), q) == Where(xs, pq)
    decreases |xs|
  {
    if xs != [] {
      assert forall x :: x in xs[1..] ==> x in xs;
      WhereWhere(xs[1..], p, q, pq);
    }
  }

  /** A selection that every element passes keeps everything. */
  lemma {:induction false} WhereAll<T(!new)>(xs: seq<T>, keep: T -> bool)
    requires forall x :: x in xs ==> keep(x)
    ensures Where(xs, keep) == xs
    decreases |xs|
  {
    if xs != [] {
      assert forall x :: x in xs[1..] ==> x in xs;
      WhereAll(xs[1..], keep);
    }
  }

  /** The first selected element is the first element of `xs` that passes. */
  lemma {:induction false} WhereFirst<T(!new)>(xs: seq<T>, keep: T -> bool)
    ensures Where(xs, keep) == [] <==> forall i :: 0 <= i < |xs| ==> !keep(xs[i])
    ensures Where(xs, keep) != [] ==>
              exists i :: 0 <= i < |xs| && keep(xs[i]) && Where(xs, keep)[0] == xs[i]
                          && forall j :: 0 <= j < i ==> !keep(xs[j])
    decreases |xs|
  {
    if xs != [] {
      WhereFirst(xs[1..], keep);
      if !keep(xs[0]) && Where(xs, keep) != [] {
        var i :| 0 <= i < |xs[1..]| && keep(xs[1..][i]) && Where(xs[1..], keep)[0] == xs[1..][i]
                 && forall j :: 0 <= j < i ==> !keep(xs[1..][j]);
        assert forall j :: 0 < j <= i ==> xs[j] == xs[1..][j - 1];
        assert keep(xs[i + 1]) && Where(xs, keep)[0] == xs[i + 1];
      }
      if forall i :: 0 <= i < |xs[1..]| ==> !keep(xs[1..][i]) {
        assert forall i :: 1 <= i < |xs| ==> xs[i] == xs[1..][i - 1];
      }
    }
  }
}
