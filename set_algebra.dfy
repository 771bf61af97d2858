/**
 * The three list operations of the renderer (render.py:9-25). Sets are Python
 * lists of integers, modelled as `seq<int>`: intersection and complement keep
 * the order of one argument and any duplicates in it, union deduplicates.
 */
module SetAlgebra {

  /** The elements of a list, forgetting order and multiplicity. */
  function Elems(s: seq<int>): set<int>
  {
    set x | x in s
  }

  predicate NoDups(s: seq<int>)
  {
    forall i, j :: 0 <= i < j < |s| ==> s[i] != s[j]
  }

  /** `r` can be obtained from `s` by deleting elements, keeping the order of the rest. */
  predicate IsSubsequence(r: seq<int>, s: seq<int>)
    decreases |s|
  {
    if r == [] then true
    else if s == [] then false
    else if r[|r| - 1] == s[|s| - 1] then IsSubsequence(r[..|r| - 1], s[..|s| - 1])
    else IsSubsequence(r, s[..|s| - 1])
  }

  /** The first occurrence of every element, in order. */
  function Dedup(s: seq<int>): (r: seq<int>)
    ensures NoDups(r)
    ensures forall x :: x in r <==> x in s
    decreases |s|
  {
    if s == [] then []
    else
      var d := Dedup(s[..|s| - 1]);
      assert forall x :: x in s <==> x in s[..|s| - 1] || x == s[|s| - 1];
      if s[|s| - 1] in d then d else d + [s[|s| - 1]]
  }

  /**
   * `union` (render.py:9-11) builds a Python set of the concatenation and lists
   * it. The order of that listing is not specified; the model lists elements
   * in order of first occurrence, and only membership and the absence of
   * duplicates are promised.
   */
  function Union(s1: seq<int>, s2: seq<int>): (r: seq<int>)
    ensures NoDups(r)
    ensures forall x :: x in r <==> x in s1 || x in s2
  {
    Dedup(s1 + s2)
  }

  /** The elements of `s1` that occur in `s2`, in `s1`'s order (render.py:13-18). */
  function IntersectionOf(s1: seq<int>, s2: seq<int>): seq<int>
    decreases |s1|
  {
    if s1 == [] then []
    else
      IntersectionOf(s1[..|s1| - 1], s2)
        + (if s1[|s1| - 1] in s2 then [s1[|s1| - 1]] else [])
  }

  /** The elements of `total` that do not occur in `s`, in `total`'s order (render.py:20-25). */
  function ComplementOf(s: seq<int>, total: seq<int>): seq<int>
    decreases |total|
  {
    if total == [] then []
    else
      ComplementOf(s, total[..|total| - 1])
        + (if total[|total| - 1] !in s then [total[|total| - 1]] else [])
  }

  /** `intersection`: the loop of render.py:14-18, appending each kept item. */
  method Intersection(s1: seq<int>, s2: seq<int>) returns (r: seq<int>)
    ensures r == IntersectionOf(s1, s2)
  {
    r := [];
    var i := 0;
    while i < |s1|
      invariant 0 <= i <= |s1|
      invariant r == IntersectionOf(s1[..i], s2)
    {
      assert s1[..i + 1][..i] == s1[..i];
      if s1[i] in s2 {
        r := r + [s1[i]];
      }
      i := i + 1;
    }
    assert s1[..i] == s1;
  }

  /** `complement`: the loop of render.py:21-25, appending each item of `total` not in `s`. */
  method Complement(s: seq<int>, total: seq<int>) returns (r: seq<int>)
    ensures r == ComplementOf(s, total)
  {
    r := [];
    var i := 0;
    while i < |total|
      invariant 0 <= i <= |total|
      invariant r == ComplementOf(s, total[..i])
    {
      assert total[..i + 1][..i] == total[..i];
      if total[i] !in s {
        r := r + [total[i]];
      }
      i := i + 1;
    }
    assert total[..i] == total;
  }

  /** An element is in the intersection exactly when it is in both arguments. */
  lemma {:induction false} IntersectionMembership(s1: seq<int>, s2: seq<int>, x: int)
    ensures x in IntersectionOf(s1, s2) <==> x in s1 && x in s2
    decreases |s1|
  {
    if s1 != [] {
      var init := s1[..|s1| - 1];
      IntersectionMembership(init, s2, x);
      assert s1 == init + [s1[|s1| - 1]];
    }
  }

  /** The intersection is `s1` with the items missing from `s2` deleted: its order is `s1`'s. */
  /** Membership in an intersection, for every element at once. */
  lemma IntersectionMembers(s1: seq<int>, s2: seq<int>)
    ensures forall x :: x in IntersectionOf(s1, s2) <==> x in s1 && x in s2
  {
    forall x ensures x in IntersectionOf(s1, s2) <==> x in s1 && x in s2 {
      IntersectionMembership(s1, s2, x);
    }
  }

  lemma {:induction false} IntersectionIsSubsequence(s1: seq<int>, s2: seq<int>)
    ensures IsSubsequence(IntersectionOf(s1, s2), s1)
    ensures |IntersectionOf(s1, s2)| <= |s1|
    decreases |s1|
  {
    if s1 != [] {
      var init := s1[..|s1| - 1];
      IntersectionIsSubsequence(init, s2);
      var r := IntersectionOf(s1, s2);
      if s1[|s1| - 1] in s2 {
        assert r[..|r| - 1] == IntersectionOf(init, s2);
      } else {
        assert r == IntersectionOf(init, s2);
        SubsequenceExtend(r, init, s1[|s1| - 1]);
        assert init + [s1[|s1| - 1]] == s1;
      }
    }
  }

  lemma {:induction false} SubsequenceExtend(r: seq<int>, s: seq<int>, y: int)
    requires IsSubsequence(r, s)
    ensures IsSubsequence(r, s + [y])
    decreases |s|, 1
  {
    var t := s + [y];
    assert t[..|t| - 1] == s;
    if r != [] && r[|r| - 1] == y {
      // the greedy match takes y; the rest of r must fit into s
      SubsequenceDropLast(r, s);
    }
  }

  lemma {:induction false} SubsequenceDropLast(r: seq<int>, s: seq<int>)
    requires r != [] && IsSubsequence(r, s)
    ensures IsSubsequence(r[..|r| - 1], s)
    decreases |s|, 0
  {
    var init := s[..|s| - 1];
    if r[|r| - 1] == s[|s| - 1] {
      if r[..|r| - 1] != [] {
        SubsequenceExtend(r[..|r| - 1], init, s[|s| - 1]);
      }
      assert init + [s[|s| - 1]] == s;
    } else {
      SubsequenceDropLast(r, init);
      SubsequenceExtend(r[..|r| - 1], init, s[|s| - 1]);
      assert init + [s[|s| - 1]] == s;
    }
  }

  /** An element is in the complement exactly when it is in `total` and not in `s`. */
  lemma {:induction false} ComplementMembership(s: seq<int>, total: seq<int>, x: int)
    ensures x in ComplementOf(s, total) <==> x in total && x !in s
    decreases |total|
  {
    if total != [] {
      var init := total[..|total| - 1];
      ComplementMembership(s, init, x);
      assert total == init + [total[|total| - 1]];
    }
  }

  /** The complement keeps `total`'s order: it is `total` with the members of `s` deleted. */
  /** Membership in a complement, for every element at once. */
  lemma ComplementMembers(s: seq<int>, total: seq<int>)
    ensures forall x :: x in ComplementOf(s, total) <==> x in total && x !in s
  {
    forall x ensures x in ComplementOf(s, total) <==> x in total && x !in s {
      ComplementMembership(s, total, x);
    }
  }

  lemma {:induction false} ComplementIsSubsequence(s: seq<int>, total: seq<int>)
    ensures IsSubsequence(ComplementOf(s, total), total)
    decreases |total|
  {
    if total != [] {
      var init := total[..|total| - 1];
      ComplementIsSubsequence(s, init);
      var r := ComplementOf(s, total);
      if total[|total| - 1] !in s {
        assert r[..|r| - 1] == ComplementOf(s, init);
      } else {
        assert r == ComplementOf(s, init);
        SubsequenceExtend(r, init, total[|total| - 1]);
        assert init + [total[|total| - 1]] == total;
      }
    }
  }

  /**
   * Only the members of `s` that lie in `total` matter: two arguments that
   * agree on `total` have the same complement, so elements outside `total`
   * are ignored.
   */
  lemma {:induction false} ComplementIgnoresOutside(s: seq<int>, s': seq<int>, total: seq<int>)
    requires forall x :: x in total ==> (x in s <==> x in s')
    ensures ComplementOf(s, total) == ComplementOf(s', total)
    decreases |total|
  {
    if total != [] {
      var init := total[..|total| - 1];
      var y := total[|total| - 1];
      assert forall x :: x in init ==> x in total;
      assert y in total;
      ComplementIgnoresOutside(s, s', init);
    }
  }

  /**
   * Complementing twice within `total` gives back the members of `s` as they
   * occur in `total`, for any `s` and `total`.
   */
  lemma {:induction false} DoubleComplement(s: seq<int>, total: seq<int>)
    ensures ComplementOf(ComplementOf(s, total), total) == IntersectionOf(total, s)
    decreases |total|
  {
    if total != [] {
      var init := total[..|total| - 1];
      var y := total[|total| - 1];
      var c := ComplementOf(s, total);
      forall x | x in init
        ensures x in ComplementOf(s, init) <==> x in c
      {
        ComplementMembership(s, init, x);
        ComplementMembership(s, total, x);
      }
      ComplementIgnoresOutside(ComplementOf(s, init), c, init);
      DoubleComplement(s, init);
      ComplementMembership(s, total, y);
    }
  }

  /** For `s` drawn from `total`, the double complement has exactly the elements of `s`. */
  lemma DoubleComplementElems(s: seq<int>, total: seq<int>)
    requires Elems(s) <= Elems(total)
    ensures Elems(ComplementOf(ComplementOf(s, total), total)) == Elems(s)
  {
    DoubleComplement(s, total);
    forall x
      ensures x in IntersectionOf(total, s) <==> x in s
    {
      IntersectionMembership(total, s, x);
      assert x in s ==> x in Elems(s);
    }
  }

  /** A set and its complement share no element. */
  lemma {:induction false} IntersectionWithComplement(s: seq<int>, total: seq<int>)
    ensures IntersectionOf(s, ComplementOf(s, total)) == []
    decreases |s|
  {
    if s != [] {
      var init := s[..|s| - 1];
      var c := ComplementOf(s, total);
      ComplementMembership(s, total, s[|s| - 1]);
      forall x | x in init ensures x !in c {
        ComplementMembership(s, total, x);
      }
      IntersectionDisjoint(init, c);
    }
  }

  lemma {:induction false} IntersectionDisjoint(s1: seq<int>, s2: seq<int>)
    requires forall x :: x in s1 ==> x !in s2
    ensures IntersectionOf(s1, s2) == []
    decreases |s1|
  {
    if s1 != [] {
      var init := s1[..|s1| - 1];
      var y := s1[|s1| - 1];
      assert y in s1;
      assert y !in s2;
      assert forall x :: x in init ==> x in s1;
      IntersectionDisjoint(init, s2);
    }
  }

  /** Intersecting a list with itself keeps it unchanged. */
  lemma {:induction false} SelfIntersection(s: seq<int>)
    ensures IntersectionOf(s, s) == s
  {
    SelfIntersectionPrefix(s, |s|);
    assert s[..|s|] == s;
  }

  lemma {:induction false} SelfIntersectionPrefix(s: seq<int>, n: nat)
    requires n <= |s|
    ensures IntersectionOf(s[..n], s) == s[..n]
    decreases n
  {
    if n > 0 {
      assert s[..n][..n - 1] == s[..n - 1];
      SelfIntersectionPrefix(s, n - 1);
    }
  }

  /** Set-level meaning of the three operations, independent of the order of union's result. */
  lemma SetLaws(s1: seq<int>, s2: seq<int>, total: seq<int>)
    ensures Elems(IntersectionOf(s1, s2)) == Elems(s1) * Elems(s2)
    ensures Elems(Union(s1, s2)) == Elems(s1) + Elems(s2)
    ensures Elems(ComplementOf(s1, total)) == Elems(total) - Elems(s1)
  {
    forall x
      ensures x in IntersectionOf(s1, s2) <==> x in s1 && x in s2
      ensures x in ComplementOf(s1, total) <==> x in total && x !in s1
    {
      IntersectionMembership(s1, s2, x);
      ComplementMembership(s1, total, x);
    }
  }
}
