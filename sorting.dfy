/**
 * Stable sorting by an integer key, the order Array.prototype.sort produces for the
 * comparator (a, b) => key(a) - key(b): ascending by key, records with equal keys left in
 * their original order. SortBy is an insertion sort; StableSortUnique shows that no other
 * order is both sorted and stable, so any stable sort gives the same array.
 */
module Sorting {

  /** Ascending by key: the comparator finds no pair out of order. */
  ghost predicate Sorted<T>(s: seq<T>, key: T -> int) {
    forall a, b :: 0 <= a < b < |s| ==> key(s[a]) <= key(s[b])
  }

  /** The elements of s whose key is m, in their order in s. */
  function WithKey<T>(s: seq<T>, key: T -> int, m: int): seq<T> {
    if s == [] then []
    else WithKey(s[..|s| - 1], key, m) + (if key(s[|s| - 1]) == m then [s[|s| - 1]] else [])
  }

  /** Stable: every key's elements appear in t in the order they have in s (and no others). */
  ghost predicate StableFor<T>(t: seq<T>, s: seq<T>, key: T -> int) {
    forall m :: WithKey(t, key, m) == WithKey(s, key, m)
  }

  /** x placed into `sorted` after every element whose key is at most x's. */
  function Insert<T>(sorted: seq<T>, x: T, key: T -> int): seq<T> {
    if sorted == [] then [x]
    else
      var last := sorted[|sorted| - 1];
      if key(last) <= key(x) then sorted + [x]
      else Insert(sorted[..|sorted| - 1], x, key) + [last]
  }

  /** The stable sort of s by key: each element inserted in turn. */
  function SortBy<T>(s: seq<T>, key: T -> int): seq<T> {
    if s == [] then [] else Insert(SortBy(s[..|s| - 1], key), s[|s| - 1], key)
  }

  /** Insert adds x and loses nothing. */
  lemma {:induction false} InsertPermutes<T>(sorted: seq<T>, x: T, key: T -> int)
    ensures multiset(Insert(sorted, x, key)) == multiset(sorted) + multiset{x}
    decreases |sorted|
  {
    if sorted != [] {
      var init, last := sorted[..|sorted| - 1], sorted[|sorted| - 1];
      assert sorted == init + [last];
      if key(last) > key(x) {
        InsertPermutes(init, x, key);
      }
    }
  }

  /** SortBy's result is a permutation of its input. */
  lemma {:induction false} SortByPermutes<T>(s: seq<T>, key: T -> int)
    ensures multiset(SortBy(s, key)) == multiset(s)
    decreases |s|
  {
    if s != [] {
      var init, last := s[..|s| - 1], s[|s| - 1];
      assert s == init + [last];
      SortByPermutes(init, key);
      InsertPermutes(SortBy(init, key), last, key);
    }
  }

  /**
   * Inserting x into P + Q, where Q holds only elements with a larger key than x's and P ends
   * with one whose key is at most x's, puts x between P and Q.
   */
  lemma {:induction false} InsertAfterSmaller<T>(p: seq<T>, x: T, q: seq<T>, key: T -> int)
    requires p == [] || key(p[|p| - 1]) <= key(x)
    requires forall k :: 0 <= k < |q| ==> key(q[k]) > key(x)
    ensures Insert(p + q, x, key) == p + [x] + q
    decreases |q|
  {
    if q == [] {
      assert p + q == p;
    } else {
      var init, last := q[..|q| - 1], q[|q| - 1];
      var pq := p + q;
      assert pq[..|pq| - 1] == p + init;
      assert pq[|pq| - 1] == last;
      assert Insert(pq, x, key) == Insert(p + init, x, key) + [last];
      InsertAfterSmaller(p, x, init, key);
      assert q == init + [last];
    }
  }

  /** Every element of Insert(s, x) comes from s or is x. */
  lemma InsertElements<T>(sorted: seq<T>, x: T, key: T -> int, k: int)
    requires 0 <= k < |Insert(sorted, x, key)|
    ensures Insert(sorted, x, key)[k] in sorted || Insert(sorted, x, key)[k] == x
  {
    var r := Insert(sorted, x, key);
    InsertPermutes(sorted, x, key);
    assert r[k] in multiset(r);
  }

  /** Inserting into a sorted sequence keeps it sorted. */
  lemma {:induction false} InsertSorted<T>(sorted: seq<T>, x: T, key: T -> int)
    requires Sorted(sorted, key)
    ensures Sorted(Insert(sorted, x, key), key)
    decreases |sorted|
  {
    if sorted != [] {
      var init := sorted[..|sorted| - 1];
      var last := sorted[|sorted| - 1];
      if key(last) > key(x) {
        InsertSorted(init, x, key);
        var r := Insert(init, x, key);
        forall k | 0 <= k < |r| ensures key(r[k]) <= key(last) {
          InsertElements(init, x, key, k);
          if r[k] in init {
            var e :| 0 <= e < |init| && init[e] == r[k];
            assert sorted[e] == r[k];
          }
        }
      }
    }
  }

  /** SortBy's result is ascending by key. */
  lemma {:induction false} SortBySorted<T>(s: seq<T>, key: T -> int)
    ensures Sorted(SortBy(s, key), key)
    decreases |s|
  {
    if s != [] {
      SortBySorted(s[..|s| - 1], key);
      InsertSorted(SortBy(s[..|s| - 1], key), s[|s| - 1], key);
    }
  }

  /** Appending one element extends its key class by it. */
  lemma WithKeySnoc<T>(s: seq<T>, y: T, key: T -> int, m: int)
    ensures WithKey(s + [y], key, m) == WithKey(s, key, m) + (if key(y) == m then [y] else [])
  {
    var r := s + [y];
    assert r[..|r| - 1] == s;
  }

  /** Inserting x adds x to x's key class, at the end, and changes no other class. */
  lemma {:induction false} InsertWithKey<T>(sorted: seq<T>, x: T, key: T -> int, m: int)
    ensures WithKey(Insert(sorted, x, key), key, m) == WithKey(sorted, key, m) + (if key(x) == m then [x] else [])
    decreases |sorted|
  {
    if sorted == [] {
      WithKeySnoc([], x, key, m);
      assert [] + [x] == [x];
    } else {
      var init, last := sorted[..|sorted| - 1], sorted[|sorted| - 1];
      assert sorted == init + [last];
      if key(last) <= key(x) {
        WithKeySnoc(sorted, x, key, m);
      } else {
        var mid := Insert(init, x, key);
        assert Insert(sorted, x, key) == mid + [last];
        WithKeySnoc(mid, last, key, m);
        WithKeySnoc(init, last, key, m);
        InsertWithKey(init, x, key, m);
      }
    }
  }

  /** SortBy keeps the order of the elements within each key class. */
  lemma {:induction false} SortByStable<T>(s: seq<T>, key: T -> int, m: int)
    ensures WithKey(SortBy(s, key), key, m) == WithKey(s, key, m)
    decreases |s|
  {
    if s != [] {
      SortByStable(s[..|s| - 1], key, m);
      InsertWithKey(SortBy(s[..|s| - 1], key), s[|s| - 1], key, m);
    }
  }

  /** A key class of a concatenation is the class in the first part followed by that in the second. */
  lemma {:induction false} WithKeyAppend<T>(a: seq<T>, b: seq<T>, key: T -> int, m: int)
    ensures WithKey(a + b, key, m) == WithKey(a, key, m) + WithKey(b, key, m)
    decreases |b|
  {
    if b == [] {
      assert a + b == a;
    } else {
      assert (a + b)[..|a + b| - 1] == a + b[..|b| - 1];
      assert (a + b)[|a + b| - 1] == b[|b| - 1];
      WithKeyAppend(a, b[..|b| - 1], key, m);
    }
  }

  /** An element is in a key class exactly when it is in the sequence and has that key. */
  lemma {:induction false} WithKeyMembers<T>(t: seq<T>, key: T -> int, m: int, y: T)
    ensures y in WithKey(t, key, m) <==> y in t && key(y) == m
    decreases |t|
  {
    if t != [] {
      var init, last := t[..|t| - 1], t[|t| - 1];
      assert t == init + [last];
      WithKeyMembers(init, key, m, y);
    }
  }

  /** An element of a sorted sequence has at most the key of its last element. */
  lemma SortedAtMostLast<T>(t: seq<T>, key: T -> int, y: T)
    requires Sorted(t, key) && y in t
    ensures key(y) <= key(t[|t| - 1])
  {
    var k :| 0 <= k < |t| && t[k] == y;
    if k < |t| - 1 {
      assert key(t[k]) <= key(t[|t| - 1]);
    }
  }

  /** A sorted sequence with no key class at all is empty. */
  lemma NoClassesEmpty<T>(t: seq<T>, key: T -> int)
    requires forall m :: WithKey(t, key, m) == []
    ensures t == []
  {
    if t != [] {
      WithKeyMembers(t, key, key(t[0]), t[0]);
      assert false;
    }
  }

  /** Equal key classes stay equal when two last elements of the same key are dropped, and those are equal. */
  lemma DropLastOfClasses<T>(init1: seq<T>, x1: T, init2: seq<T>, x2: T, key: T -> int, m: int)
    requires key(x1) == key(x2)
    requires WithKey(init1 + [x1], key, m) == WithKey(init2 + [x2], key, m)
    ensures WithKey(init1, key, m) == WithKey(init2, key, m)
    ensures m == key(x1) ==> x1 == x2
  {
    WithKeySnoc(init1, x1, key, m);
    WithKeySnoc(init2, x2, key, m);
    var w1, w2 := WithKey(init1, key, m), WithKey(init2, key, m);
    if m == key(x1) {
      assert w1 + [x1] == w2 + [x2];
      assert (w1 + [x1])[..|w1|] == w1 && (w2 + [x2])[..|w2|] == w2;
      assert (w1 + [x1])[|w1|] == x1 && (w2 + [x2])[|w2|] == x2;
    } else {
      assert w1 + [] == w1 && w2 + [] == w2;
    }
  }

  /** Two sorted sequences with the same key classes are the same sequence. */
  lemma {:induction false} SortedClassesDetermine<T>(t1: seq<T>, t2: seq<T>, key: T -> int)
    requires Sorted(t1, key) && Sorted(t2, key)
    requires forall m :: WithKey(t1, key, m) == WithKey(t2, key, m)
    ensures t1 == t2
    decreases |t1|
  {
    if t1 == [] {
      NoClassesEmpty(t2, key);
    } else if t2 == [] {
      NoClassesEmpty(t1, key);
    } else {
      var init1, x1 := t1[..|t1| - 1], t1[|t1| - 1];
      var init2, x2 := t2[..|t2| - 1], t2[|t2| - 1];
      assert t1 == init1 + [x1] && t2 == init2 + [x2];
      WithKeyMembers(t1, key, key(x2), x2);
      WithKeyMembers(t2, key, key(x2), x2);
      SortedAtMostLast(t1, key, x2);
      WithKeyMembers(t1, key, key(x1), x1);
      WithKeyMembers(t2, key, key(x1), x1);
      SortedAtMostLast(t2, key, x1);
      var top := key(x1);
      assert key(x2) == top;
      forall m ensures WithKey(init1, key, m) == WithKey(init2, key, m) {
        DropLastOfClasses(init1, x1, init2, x2, key, m);
      }
      DropLastOfClasses(init1, x1, init2, x2, key, top);
      SortedClassesDetermine(init1, init2, key);
    }
  }

  /**
   * SortBy is THE stable sort: a sequence that is sorted by key and keeps every key class of s
   * in order is SortBy(s, key).
   */
  lemma StableSortUnique<T>(s: seq<T>, t: seq<T>, key: T -> int)
    requires Sorted(t, key) && StableFor(t, s, key)
    ensures t == SortBy(s, key)
  {
    SortBySorted(s, key);
    forall m ensures WithKey(t, key, m) == WithKey(SortBy(s, key), key, m) {
      SortByStable(s, key, m);
    }
    SortedClassesDetermine(t, SortBy(s, key), key);
  }
}
