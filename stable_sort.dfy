/**
 * `Array.prototype.sort(cmp)` on a list, as a stable insertion sort. The
 * comparator returns the sign the sort reads from the user's compare
 * function: negative, zero or positive.
 */
module StableSort {

  /** Inserts x, which came first, before the first element it need not follow; ties keep x in front. */
  function Insert<T(==)>(cmp: (T, T) -> int, x: T, s: seq<T>): (r: seq<T>)
    ensures multiset(r) == multiset{x} + multiset(s)
  {
    if |s| == 0 then [x]
    else if cmp(x, s[0]) <= 0 then [x] + s
    else
      assert s == [s[0]] + s[1..];
      [s[0]] + Insert(cmp, x, s[1..])
  }

  function Sort<T(==)>(cmp: (T, T) -> int, s: seq<T>): seq<T> {
    if |s| == 0 then [] else Insert(cmp, s[0], Sort(cmp, s[1..]))
  }

  lemma {:induction false} SortPermutes<T>(cmp: (T, T) -> int, s: seq<T>)
    ensures multiset(Sort(cmp, s)) == multiset(s)
  {
    if |s| > 0 {
      SortPermutes(cmp, s[1..]);
      assert s == [s[0]] + s[1..];
    }
  }

  /**
   * On the values in dom the comparator is antisymmetric and "not after"
   * is transitive, which the sort needs to produce an ordered list.
   */
  predicate PreorderOn<T(!new)>(cmp: (T, T) -> int, dom: set<T>) {
    && (forall a, b :: a in dom && b in dom ==> cmp(a, b) == -cmp(b, a))
    && (forall a, b, c :: a in dom && b in dom && c in dom && cmp(a, b) <= 0 && cmp(b, c) <= 0 ==> cmp(a, c) <= 0)
  }

  predicate Sorted<T>(cmp: (T, T) -> int, s: seq<T>) {
    forall i, j :: 0 <= i < j < |s| ==> cmp(s[i], s[j]) <= 0
  }

  predicate Within<T>(s: seq<T>, dom: set<T>) {
    forall p :: p in s ==> p in dom
  }

  /** Putting x in front of a sorted list keeps it sorted when x need not follow the first element. */
  lemma PrependSorted<T(!new)>(cmp: (T, T) -> int, dom: set<T>, x: T, s: seq<T>)
    requires PreorderOn(cmp, dom) && x in dom && Within(s, dom) && Sorted(cmp, s)
    requires |s| > 0 ==> cmp(x, s[0]) <= 0
    ensures Sorted(cmp, [x] + s)
  {
    var r := [x] + s;
    forall i, j | 0 <= i < j < |r|
      ensures cmp(r[i], r[j]) <= 0
    {
      if i == 0 {
        assert r[j] == s[j - 1] && s[j - 1] in s && s[0] in s;
        if j > 1 {
          assert cmp(s[0], s[j - 1]) <= 0;
        }
      } else {
        assert r[i] == s[i - 1] && r[j] == s[j - 1];
      }
    }
  }

  lemma {:induction false} InsertSorted<T(!new)>(cmp: (T, T) -> int, dom: set<T>, x: T, s: seq<T>)
    requires PreorderOn(cmp, dom) && x in dom && Within(s, dom) && Sorted(cmp, s)
    ensures Sorted(cmp, Insert(cmp, x, s))
  {
    if |s| > 0 && cmp(x, s[0]) > 0 {
      var y := s[0];
      assert y in s;
      assert Within(s[1..], dom) by {
        forall p | p in s[1..] ensures p in s { }
      }
      assert Sorted(cmp, s[1..]) by {
        forall i, j | 0 <= i < j < |s[1..]| ensures cmp(s[1..][i], s[1..][j]) <= 0 {
          assert s[1..][i] == s[i + 1] && s[1..][j] == s[j + 1];
        }
      }
      InsertSorted(cmp, dom, x, s[1..]);
      var tail := Insert(cmp, x, s[1..]);
      assert Within(tail, dom) by {
        forall p | p in tail ensures p in dom {
          assert p in multiset(tail);
          if p != x {
            assert p in s[1..];
          }
        }
      }
      if |tail| > 0 {
        assert tail[0] in multiset(tail);
        if tail[0] != x {
          assert tail[0] in s[1..];
          var m :| 0 <= m < |s[1..]| && s[1..][m] == tail[0];
          assert s[m + 1] == tail[0];
        }
      }
      PrependSorted(cmp, dom, y, tail);
    } else {
      PrependSorted(cmp, dom, x, s);
    }
  }

  lemma {:induction false} SortSorts<T(!new)>(cmp: (T, T) -> int, dom: set<T>, s: seq<T>)
    requires PreorderOn(cmp, dom) && Within(s, dom)
    ensures Sorted(cmp, Sort(cmp, s))
  {
    if |s| > 0 {
      SortSorts(cmp, dom, s[1..]);
      SortPermutes(cmp, s[1..]);
      forall p | p in Sort(cmp, s[1..]) ensures p in dom {
        assert p in multiset(Sort(cmp, s[1..]));
      }
      InsertSorted(cmp, dom, s[0], Sort(cmp, s[1..]));
    }
  }

  /* Stability */

  /** The elements of s that the comparator ties with t, in order. */
  function Ties<T>(cmp: (T, T) -> int, s: seq<T>, t: T): (r: seq<T>)
    ensures |r| <= |s|
  {
    if |s| == 0 then []
    else (if cmp(s[0], t) == 0 then [s[0]] else []) + Ties(cmp, s[1..], t)
  }

  lemma TiesCons<T>(cmp: (T, T) -> int, y: T, r: seq<T>, t: T)
    ensures Ties(cmp, [y] + r, t) == (if cmp(y, t) == 0 then [y] else []) + Ties(cmp, r, t)
  {
    assert ([y] + r)[1..] == r;
  }

  /** An element x must follow cannot tie with an element x ties with. */
  lemma FollowsNoTie<T(!new)>(cmp: (T, T) -> int, dom: set<T>, x: T, y: T, t: T)
    requires PreorderOn(cmp, dom) && x in dom && y in dom && t in dom
    requires cmp(x, y) > 0 && cmp(x, t) == 0
    ensures cmp(y, t) != 0
  {
  }

  lemma {:induction false} InsertKeepsTies<T(!new)>(cmp: (T, T) -> int, dom: set<T>, x: T, s: seq<T>, t: T)
    requires PreorderOn(cmp, dom) && x in dom && t in dom && Within(s, dom)
    ensures Ties(cmp, Insert(cmp, x, s), t) == (if cmp(x, t) == 0 then [x] else []) + Ties(cmp, s, t)
  {
    if |s| > 0 && cmp(x, s[0]) > 0 {
      var y, rest := s[0], Insert(cmp, x, s[1..]);
      assert Insert(cmp, x, s) == [y] + rest;
      assert s == [y] + s[1..];
      assert y in s;
      assert Within(s[1..], dom) by {
        forall p | p in s[1..] ensures p in s { }
      }
      InsertKeepsTies(cmp, dom, x, s[1..], t);
      TiesCons(cmp, y, rest, t);
      TiesCons(cmp, y, s[1..], t);
      if cmp(x, t) == 0 {
        FollowsNoTie(cmp, dom, x, y, t);
        assert Ties(cmp, s, t) == Ties(cmp, s[1..], t);
        assert Ties(cmp, Insert(cmp, x, s), t) == Ties(cmp, rest, t);
      } else {
        assert Ties(cmp, rest, t) == Ties(cmp, s[1..], t);
      }
    } else {
      assert Insert(cmp, x, s) == [x] + s;
      TiesCons(cmp, x, s, t);
    }
  }

  lemma {:induction false} SortKeepsTies<T(!new)>(cmp: (T, T) -> int, dom: set<T>, s: seq<T>, t: T)
    requires PreorderOn(cmp, dom) && t in dom && Within(s, dom)
    ensures Ties(cmp, Sort(cmp, s), t) == Ties(cmp, s, t)
  {
    if |s| > 0 {
      SortKeepsTies(cmp, dom, s[1..], t);
      SortPermutes(cmp, s[1..]);
      forall p | p in Sort(cmp, s[1..]) ensures p in dom {
        assert p in multiset(Sort(cmp, s[1..]));
      }
      InsertKeepsTies(cmp, dom, s[0], Sort(cmp, s[1..]), t);
    }
  }
}
