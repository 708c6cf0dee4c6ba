/** Suffixes, and a sort, as several parts of the program use them. */
module Sequences {

  // ---------------------------------------------------------------- suffixes

  predicate IsSuffix<T(==)>(s: seq<T>, t: seq<T>) {
    |s| <= |t| && s == t[|t| - |s|..]
  }

  lemma SuffixTransitive<T>(r: seq<T>, s: seq<T>, t: seq<T>)
    requires IsSuffix(r, s) && IsSuffix(s, t)
    ensures IsSuffix(r, t)
  {
    assert t[|t| - |r|..] == t[|t| - |s|..][|s| - |r|..];
  }

  lemma SuffixGrows<T>(s: seq<T>, t: seq<T>, more: seq<T>)
    requires IsSuffix(s, t)
    ensures IsSuffix(s + more, t + more)
  {
    assert s + more == (t + more)[|t| - |s|..];
  }

  lemma SuffixOfItself<T>(s: seq<T>)
    ensures IsSuffix(s, s)
  {
    assert s[|s| - |s|..] == s;
  }

  // ---------------------------------------------------------------- sorting

  /** Does no element come behind one that it should precede? */
  predicate Ordered<T>(less: (T, T) -> bool, s: seq<T>) {
    forall i, j :: 0 <= i < j < |s| ==> !less(s[j], s[i])
  }

  /** What `sort.Sort` asks of `Less` to be sure of its result, on the elements given. */
  ghost predicate WeakOrder<T(!new)>(less: (T, T) -> bool, s: seq<T>) {
    && (forall p, q :: p in s && q in s && less(p, q) ==> !less(q, p))
    && (forall p, q, r :: p in s && q in s && r in s && !less(q, p) && !less(r, q) ==> !less(r, p))
  }

  function Swapped<T>(s: seq<T>, i: nat, j: nat): (r: seq<T>)
    requires i < |s| && j < |s|
    ensures |r| == |s| && multiset(r) == multiset(s)
  {
    s[i := s[j]][j := s[i]]
  }

  lemma SameElements<T>(s: seq<T>, t: seq<T>)
    requires multiset(s) == multiset(t)
    ensures forall x :: x in s <==> x in t
  {
    forall x
      ensures x in s <==> x in t
    {
      assert x in multiset(s) <==> x in multiset(t);
    }
  }

  lemma WeakOrderPermuted<T(!new)>(less: (T, T) -> bool, s: seq<T>, t: seq<T>)
    requires multiset(s) == multiset(t) && WeakOrder(less, s)
    ensures WeakOrder(less, t)
  {
    SameElements(s, t);
  }

  /** Ordered up to end, except that the j-th element may still belong further left. */
  predicate OrderedBut<T>(less: (T, T) -> bool, s: seq<T>, end: nat, j: nat)
    requires end <= |s|
  {
    && (forall p, q :: 0 <= p < q < end && p != j && q != j ==> !less(s[q], s[p]))
    && (forall q :: j < q < end ==> !less(s[q], s[j]))
  }

  lemma OneFurther<T(!new)>(less: (T, T) -> bool, s: seq<T>, end: nat, j: nat)
    requires 0 < j < end <= |s| && OrderedBut(less, s, end, j)
    requires less(s[j], s[j - 1]) && WeakOrder(less, s)
    ensures OrderedBut(less, Swapped(s, j, j - 1), end, j - 1)
  {
    assert !less(s[j - 1], s[j]);
  }

  lemma InPlace<T(!new)>(less: (T, T) -> bool, s: seq<T>, end: nat, j: nat)
    requires j < end <= |s| && OrderedBut(less, s, end, j) && WeakOrder(less, s)
    requires j > 0 ==> !less(s[j], s[j - 1])
    ensures Ordered(less, s[..end])
  {
    forall p | 0 <= p < j
      ensures !less(s[j], s[p])
    {
      if p < j - 1 {
        assert !less(s[j - 1], s[p]);
      }
    }
  }

  /** `sort.Sort`, by insertion through neighbouring swaps. */
  method Sort<T(!new)>(less: (T, T) -> bool, s: seq<T>) returns (r: seq<T>)
    ensures multiset(r) == multiset(s) && |r| == |s|
    ensures WeakOrder(less, s) ==> Ordered(less, r)
  {
    hide WeakOrder, Swapped;
    r := s;
    for i := 0 to |s|
      invariant |r| == |s| && multiset(r) == multiset(s)
      invariant WeakOrder(less, s) ==> Ordered(less, r[..i])
    {
      var j := i;
      assert WeakOrder(less, s) ==> OrderedBut(less, r, i + 1, j) by {
        assert forall p :: 0 <= p < i ==> r[..i][p] == r[p];
      }
      while j > 0 && less(r[j], r[j - 1])
        invariant 0 <= j <= i
        invariant |r| == |s| && multiset(r) == multiset(s)
        invariant WeakOrder(less, s) ==> OrderedBut(less, r, i + 1, j)
      {
        if WeakOrder(less, s) {
          WeakOrderPermuted(less, s, r);
          OneFurther(less, r, i + 1, j);
        }
        r := Swapped(r, j, j - 1);
        j := j - 1;
      }
      if WeakOrder(less, s) {
        WeakOrderPermuted(less, s, r);
        InPlace(less, r, i + 1, j);
      }
    }
    assert r[..|s|] == r;
  }
}
