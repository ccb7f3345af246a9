/** Strictly increasing integer sequences, the shape of every label list in the publisher, and sequences without
    repetition. */
module Increasing {

  ghost predicate Strict(s: seq<int>) {
    forall i, j :: 0 <= i < j < |s| ==> s[i] < s[j]
  }

  lemma Append(s: seq<int>, x: int)
    requires Strict(s)
    requires forall y :: y in s ==> y < x
    ensures Strict(s + [x])
  {
    forall i, j | 0 <= i < j < |s + [x]| ensures (s + [x])[i] < (s + [x])[j] {
      if j == |s| { assert s[i] in s; }
    }
  }

  lemma LastIsGreatest(s: seq<int>)
    requires s != [] && Strict(s)
    ensures Strict(s[..|s| - 1])
    ensures var init, last := s[..|s| - 1], s[|s| - 1]; forall y :: y in init ==> y < last
  {
  }

  /** A strictly increasing sequence is determined by its elements. */
  lemma {:induction false} Unique(s: seq<int>, t: seq<int>)
    requires Strict(s) && Strict(t)
    requires forall x :: x in s <==> x in t
    ensures s == t
  {
    assert s != [] ==> s[0] in s && s[0] in t;
    assert t != [] ==> t[0] in t && t[0] in s;
    if s != [] && t != [] {
      assert s[0] == t[0];
      forall x ensures x in s[1..] <==> x in t[1..] {
        assert x in s[1..] ==> x in s && x != s[0];
        assert x in t[1..] ==> x in t && x != t[0];
      }
      Unique(s[1..], t[1..]);
      assert s == [s[0]] + s[1..] && t == [t[0]] + t[1..];
    }
  }

  // ---- Sequences without repetition ----

  function Members<T>(s: seq<T>): set<T> { set x | x in s }

  ghost predicate Distinct<T>(s: seq<T>) { forall i, j :: 0 <= i < j < |s| ==> s[i] != s[j] }

  lemma DistinctMore<T>(init: seq<T>, last: T)
    ensures Distinct(init + [last]) <==> Distinct(init) && last !in init
    ensures Members(init + [last]) == Members(init) + {last}
  {
    var s := init + [last];
    assert s[|init|] == last && forall i {:trigger init[i]} :: 0 <= i < |init| ==> s[i] == init[i];
    if last in init {
      var i :| 0 <= i < |init| && init[i] == last;
      assert s[i] == s[|init|];
    }
  }

  /** Nothing is repeated if and only if there are as many members as elements. */
  lemma {:induction false} DistinctExact<T>(s: seq<T>)
    ensures |Members(s)| <= |s|
    ensures Distinct(s) <==> |Members(s)| == |s|
  {
    if s != [] {
      var init, last := s[..|s| - 1], s[|s| - 1];
      assert s == init + [last];
      DistinctExact(init);
      DistinctMore(init, last);
      hide Distinct;
      assert last in init ==> Members(init) + {last} == Members(init);
    }
  }

  // ---- Filters ----

  /** The elements no greater than `hi`, in order. */
  function UpTo(s: seq<int>, hi: int): (r: seq<int>)
    ensures forall x :: x in r <==> x in s && x <= hi
    ensures |r| <= |s|
  {
    if s == [] then [] else
      var init := UpTo(s[..|s| - 1], hi);
      var last := s[|s| - 1];
      assert s == s[..|s| - 1] + [last];
      if last <= hi then init + [last] else init
  }

  lemma UpToStrict(s: seq<int>, hi: int)
    requires Strict(s)
    ensures Strict(UpTo(s, hi))
  {
    if s != [] {
      LastIsGreatest(s);
      UpToStrict(s[..|s| - 1], hi);
      if s[|s| - 1] <= hi {
        Append(UpTo(s[..|s| - 1], hi), s[|s| - 1]);
      }
    }
  }

  /** The elements outside `known`, in order. */
  function Without(s: seq<int>, known: set<int>): (r: seq<int>)
    ensures forall x :: x in r <==> x in s && x !in known
  {
    if s == [] then [] else
      var init := Without(s[..|s| - 1], known);
      var last := s[|s| - 1];
      assert s == s[..|s| - 1] + [last];
      if last !in known then init + [last] else init
  }

  lemma WithoutStrict(s: seq<int>, known: set<int>)
    requires Strict(s)
    ensures Strict(Without(s, known))
  {
    if s != [] {
      LastIsGreatest(s);
      WithoutStrict(s[..|s| - 1], known);
      if s[|s| - 1] !in known {
        Append(Without(s[..|s| - 1], known), s[|s| - 1]);
      }
    }
  }

  /** The least element of a non-empty set. */
  ghost function Least(s: set<int>): (m: int)
    requires exists x :: x in s
    ensures m in s && forall x :: x in s ==> m <= x
  {
    var x :| x in s;
    if exists y :: y in s - {x} then
      var rest := Least(s - {x});
      assert forall y :: y in s ==> y == x || y in s - {x};
      if x <= rest then x else rest
    else
      assert forall y :: y in s ==> y == x || y in s - {x};
      x
  }

  method Minimum(s: set<int>) returns (m: int)
    requires exists x :: x in s
    ensures m in s && forall x :: x in s ==> m <= x
  {
    m :| m in s;
    var rest := s - {m};
    while exists x :: x in rest
      invariant rest <= s && m in s && forall x :: x in s && x !in rest ==> m <= x
      decreases rest
    {
      var x :| x in rest;
      if x < m { m := x; }
      rest := rest - {x};
    }
  }

  /** The members of `s` that have fewer than two greater members. */
  ghost function NewestTwo(s: set<int>): set<int> {
    set k | k in s && |set j | j in s && j > k| < 2
  }
}
