/** Python's `sorted(xs, key=...)`: a stable sort by an integer key. */
module Sorting {

  /** Nondecreasing by `key`. */
  ghost predicate SortedBy<T>(s: seq<T>, key: T -> int) {
    forall i, j :: 0 <= i < j < |s| ==> key(s[i]) <= key(s[j])
  }

  /** The elements of `s` whose key is `k`, in their order in `s`. A sort is
      stable when it leaves every such class as it found it. */
  function KeyClass<T>(s: seq<T>, key: T -> int, k: int): seq<T> {
    if s == [] then []
    else (if key(s[0]) == k then [s[0]] else []) + KeyClass(s[1..], key, k)
  }

  /** Places `x` in front of the first element whose key is not smaller. */
  function Insert<T>(x: T, s: seq<T>, key: T -> int): (r: seq<T>)
    ensures |r| == |s| + 1
  {
    if s == [] || key(x) <= key(s[0]) then
      [x] + s
    else
      assert s == [s[0]] + s[1..];
      [s[0]] + Insert(x, s[1..], key)
  }

  /** Inserting `x` adds it in front of the other members of its key class
      and leaves every other class alone. */
  lemma {:induction false} InsertClass<T>(x: T, s: seq<T>, key: T -> int, k: int)
    ensures KeyClass(Insert(x, s, key), key, k) == (if key(x) == k then [x] else []) + KeyClass(s, key, k)
  {
    var hx := if key(x) == k then [x] else [];
    if s == [] || key(x) <= key(s[0]) {
      ClassCons(x, s, key, k);
    } else {
      var t := Insert(x, s[1..], key);
      var h0 := if key(s[0]) == k then [s[0]] else [];
      var c := KeyClass(s[1..], key, k);
      assert KeyClass(t, key, k) == hx + c by {
        InsertClass(x, s[1..], key, k);
      }
      assert KeyClass([s[0]] + t, key, k) == h0 + (hx + c) by {
        ClassCons(s[0], t, key, k);
      }
      assert KeyClass(s, key, k) == h0 + c by {
        ClassCons(s[0], s[1..], key, k);
        assert [s[0]] + s[1..] == s;
      }
      if h0 == [] {
        assert h0 + (hx + c) == hx + c == hx + (h0 + c);
      } else {
        assert hx == [];
        assert h0 + (hx + c) == h0 + c == hx + (h0 + c);
      }
    }
  }

  /** Inserting adds `x` and nothing else. */
  lemma {:induction false} InsertPermutes<T>(x: T, s: seq<T>, key: T -> int)
    ensures multiset(Insert(x, s, key)) == multiset(s) + multiset{x}
  {
    if s != [] && key(s[0]) < key(x) {
      InsertPermutes(x, s[1..], key);
      assert s == [s[0]] + s[1..];
    }
  }

  /** The key class of a sequence with a head element in front. */
  lemma ClassCons<T>(x: T, s: seq<T>, key: T -> int, k: int)
    ensures KeyClass([x] + s, key, k) == (if key(x) == k then [x] else []) + KeyClass(s, key, k)
  {
    assert ([x] + s)[1..] == s;
  }

  /** A lower bound of `x` and of every element of `s` bounds the result. */
  lemma {:induction false} InsertBounded<T>(x: T, s: seq<T>, key: T -> int, lo: int)
    requires lo <= key(x)
    requires forall i :: 0 <= i < |s| ==> lo <= key(s[i])
    ensures forall i :: 0 <= i < |Insert(x, s, key)| ==> lo <= key(Insert(x, s, key)[i])
  {
    if s == [] || key(x) <= key(s[0]) {
      var r := [x] + s;
      assert forall i :: 0 < i < |r| ==> r[i] == s[i - 1];
    } else {
      var t := Insert(x, s[1..], key);
      var r := [s[0]] + t;
      assert forall i :: 0 <= i < |s[1..]| ==> s[1..][i] == s[i + 1];
      InsertBounded(x, s[1..], key, lo);
      assert forall i :: 0 < i < |r| ==> r[i] == t[i - 1];
    }
  }

  /** Inserting into a sorted sequence keeps it sorted. */
  lemma {:induction false} InsertKeepsSorted<T>(x: T, s: seq<T>, key: T -> int)
    requires SortedBy(s, key)
    ensures SortedBy(Insert(x, s, key), key)
  {
    if s == [] || key(x) <= key(s[0]) {
      var r := [x] + s;
      assert forall i :: 0 < i < |r| ==> r[i] == s[i - 1];
    } else {
      var t := Insert(x, s[1..], key);
      var r := [s[0]] + t;
      assert SortedBy(t, key) by {
        InsertKeepsSorted(x, s[1..], key);
      }
      assert forall i :: 0 <= i < |t| ==> key(s[0]) <= key(t[i]) by {
        InsertBounded(x, s[1..], key, key(s[0]));
      }
      assert forall i :: 0 < i < |r| ==> r[i] == t[i - 1];
    }
  }

  /** Insertion sort, ascending by `key`, stable like Python's `sorted`. */
  function SortBy<T>(s: seq<T>, key: T -> int): (r: seq<T>)
    ensures |r| == |s|
    ensures SortedBy(r, key)
  {
    if s == [] then []
    else
      assert s == [s[0]] + s[1..];
      var t := SortBy(s[1..], key);
      InsertKeepsSorted(s[0], t, key);
      Insert(s[0], t, key)
  }

  /** The sort rearranges `s`: it neither drops nor adds an element. */
  lemma {:induction false} SortByPermutes<T>(s: seq<T>, key: T -> int)
    ensures multiset(SortBy(s, key)) == multiset(s)
  {
    if s != [] {
      var t := SortBy(s[1..], key);
      SortByPermutes(s[1..], key);
      InsertPermutes(s[0], t, key);
      assert SortBy(s, key) == Insert(s[0], t, key);
      assert s == [s[0]] + s[1..];
      assert multiset(s) == multiset{s[0]} + multiset(s[1..]);
    }
  }

  /** The sort is stable: it keeps every key class as it was. */
  lemma {:induction false} SortByClasses<T>(s: seq<T>, key: T -> int)
    ensures forall k :: KeyClass(SortBy(s, key), key, k) == KeyClass(s, key, k)
  {
    if s != [] {
      var t := SortBy(s[1..], key);
      SortByClasses(s[1..], key);
      forall k ensures KeyClass(SortBy(s, key), key, k) == KeyClass(s, key, k) {
        InsertClass(s[0], t, key, k);
      }
    }
  }

  /** Every member of a key class is an element of `s` with that key. */
  lemma {:induction false} KeyClassMember<T>(s: seq<T>, key: T -> int, k: int, x: T)
    requires x in KeyClass(s, key, k)
    ensures x in s && key(x) == k
  {
    if s != [] {
      if x != s[0] || key(s[0]) != k {
        KeyClassMember(s[1..], key, k, x);
      }
    }
  }

  lemma HeadClassNonEmpty<T>(s: seq<T>, key: T -> int)
    requires s != []
    ensures KeyClass(s, key, key(s[0])) != []
  {
  }

  /** The head of a sorted sequence has the least key. */
  lemma HeadLeast<T>(s: seq<T>, key: T -> int, x: T)
    requires SortedBy(s, key) && x in s
    ensures key(s[0]) <= key(x)
  {
    var i :| 0 <= i < |s| && s[i] == x;
    if i > 0 {
      assert key(s[0]) <= key(s[i]);
    }
  }

  /** Two sorted sequences with the same key classes start alike. */
  lemma SameHead<T>(a: seq<T>, b: seq<T>, key: T -> int)
    requires a != [] && b != []
    requires SortedBy(a, key) && SortedBy(b, key)
    requires forall k :: KeyClass(a, key, k) == KeyClass(b, key, k)
    ensures a[0] == b[0]
  {
    var m, n := key(a[0]), key(b[0]);
    assert a[0] in b && key(a[0]) == m by {
      assert KeyClass(a, key, m)[0] == a[0];
      assert a[0] in KeyClass(b, key, m);
      KeyClassMember(b, key, m, a[0]);
    }
    assert b[0] in a && key(b[0]) == n by {
      assert KeyClass(b, key, n)[0] == b[0];
      assert b[0] in KeyClass(a, key, n);
      KeyClassMember(a, key, n, b[0]);
    }
    assert m == n by {
      HeadLeast(a, key, b[0]);
      HeadLeast(b, key, a[0]);
    }
    assert KeyClass(a, key, m)[0] == a[0] && KeyClass(b, key, m)[0] == b[0];
  }

  /** Dropping a common head keeps the key classes equal. */
  lemma SameClassesOfTails<T>(a: seq<T>, b: seq<T>, key: T -> int)
    requires a != [] && b != [] && a[0] == b[0]
    requires forall k :: KeyClass(a, key, k) == KeyClass(b, key, k)
    ensures forall k :: KeyClass(a[1..], key, k) == KeyClass(b[1..], key, k)
  {
    forall k ensures KeyClass(a[1..], key, k) == KeyClass(b[1..], key, k) {
      var p, q := KeyClass(a[1..], key, k), KeyClass(b[1..], key, k);
      var h := if key(a[0]) == k then [a[0]] else [];
      assert h + p == h + q by {
        assert KeyClass(a, key, k) == h + p;
        assert KeyClass(b, key, k) == h + q;
      }
      assert p == (h + p)[|h|..] && q == (h + q)[|h|..];
    }
  }

  /** Two sorted sequences with the same key classes are equal: sortedness
      fixes the order between classes, stability the order inside one. */
  lemma {:induction false} SortedSameClassesEqual<T>(a: seq<T>, b: seq<T>, key: T -> int)
    requires SortedBy(a, key) && SortedBy(b, key)
    requires forall k :: KeyClass(a, key, k) == KeyClass(b, key, k)
    ensures a == b
    decreases |a| + |b|
  {
    if a != [] { HeadClassNonEmpty(a, key); }
    if b != [] { HeadClassNonEmpty(b, key); }
    if a != [] && b != [] {
      SameHead(a, b, key);
      SameClassesOfTails(a, b, key);
      assert SortedBy(a[1..], key) && SortedBy(b[1..], key) by {
        assert forall i :: 0 <= i < |a[1..]| ==> a[1..][i] == a[i + 1];
        assert forall i :: 0 <= i < |b[1..]| ==> b[1..][i] == b[i + 1];
      }
      SortedSameClassesEqual(a[1..], b[1..], key);
      assert a == [a[0]] + a[1..] && b == [b[0]] + b[1..];
    }
  }

  /** The sort is determined by its contract: any sorted rearrangement of
      `s` that keeps every key class in order is `SortBy(s, key)`. */
  lemma SortByUnique<T>(s: seq<T>, r: seq<T>, key: T -> int)
    requires SortedBy(r, key)
    requires forall k :: KeyClass(r, key, k) == KeyClass(s, key, k)
    ensures r == SortBy(s, key)
  {
    SortByClasses(s, key);
    SortedSameClassesEqual(r, SortBy(s, key), key);
  }

  /** `x` occurs somewhere before `y` in `s`. */
  ghost predicate Precedes<T>(s: seq<T>, x: T, y: T) {
    exists a, b :: 0 <= a < b < |s| && s[a] == x && s[b] == y
  }

  /** Every element of `s` belongs to the class of its key. */
  lemma {:induction false} ClassHasMember<T>(s: seq<T>, key: T -> int, x: T)
    requires x in s
    ensures x in KeyClass(s, key, key(x))
  {
    if s[0] != x {
      ClassHasMember(s[1..], key, x);
    }
  }

  /** Taking a key class keeps the order of its members. */
  lemma {:induction false} PrecedesInClass<T>(s: seq<T>, key: T -> int, x: T, y: T)
    requires Precedes(s, x, y) && key(x) == key(y)
    ensures Precedes(KeyClass(s, key, key(x)), x, y)
  {
    var a, b :| 0 <= a < b < |s| && s[a] == x && s[b] == y;
    var k := key(x);
    var h := if key(s[0]) == k then [s[0]] else [];
    var t := KeyClass(s[1..], key, k);
    assert KeyClass(s, key, k) == h + t;
    if a == 0 {
      assert s[1..][b - 1] == y;
      ClassHasMember(s[1..], key, y);
      var m :| 0 <= m < |t| && t[m] == y;
      assert (h + t)[0] == x && (h + t)[1 + m] == y;
    } else {
      assert s[1..][a - 1] == x && s[1..][b - 1] == y;
      PrecedesInClass(s[1..], key, x, y);
      var c, d :| 0 <= c < d < |t| && t[c] == x && t[d] == y;
      assert (h + t)[|h| + c] == x && (h + t)[|h| + d] == y;
    }
  }

  /** Two members in order in a key class are in that order in `s`. */
  lemma {:induction false} PrecedesFromClass<T>(s: seq<T>, key: T -> int, k: int, x: T, y: T)
    requires Precedes(KeyClass(s, key, k), x, y)
    ensures Precedes(s, x, y)
  {
    var h := if key(s[0]) == k then [s[0]] else [];
    var t := KeyClass(s[1..], key, k);
    assert KeyClass(s, key, k) == h + t;
    var a, b :| 0 <= a < b < |h + t| && (h + t)[a] == x && (h + t)[b] == y;
    if |h| == 1 && a == 0 {
      assert t[b - 1] == y;
      KeyClassMember(s[1..], key, k, y);
      var m :| 0 <= m < |s[1..]| && s[1..][m] == y;
      assert s[0] == x && s[1 + m] == y;
    } else {
      assert t[a - |h|] == x && t[b - |h|] == y;
      PrecedesFromClass(s[1..], key, k, x, y);
      var c, d :| 0 <= c < d < |s[1..]| && s[1..][c] == x && s[1..][d] == y;
      assert s[c + 1] == x && s[d + 1] == y;
    }
  }

  /** Stability: two elements with equal keys come out of the sort in the
      order they went in. */
  lemma SortByStable<T>(s: seq<T>, key: T -> int, x: T, y: T)
    requires Precedes(SortBy(s, key), x, y) && key(x) == key(y)
    ensures Precedes(s, x, y)
  {
    SortByClasses(s, key);
    PrecedesInClass(SortBy(s, key), key, x, y);
    PrecedesFromClass(s, key, key(x), x, y);
  }

  /** Distinct `f`-images of all positions. */
  ghost predicate InjectiveOn<T, K>(s: seq<T>, f: T -> K) {
    forall i, j :: 0 <= i < j < |s| ==> f(s[i]) != f(s[j])
  }

  lemma {:induction false} TwoOccurrences<T>(s: seq<T>, x: T)
    requires multiset(s)[x] >= 2
    ensures exists a, b :: 0 <= a < b < |s| && s[a] == x && s[b] == x
  {
    assert s == [s[0]] + s[1..];
    if s[0] == x {
      assert x in multiset(s[1..]);
      var b :| 0 <= b < |s[1..]| && s[1..][b] == x;
      assert s[b + 1] == x;
    } else {
      TwoOccurrences(s[1..], x);
      var a, b :| 0 <= a < b < |s[1..]| && s[1..][a] == x && s[1..][b] == x;
      assert s[a + 1] == x && s[b + 1] == x;
    }
  }

  /** A rearrangement keeps the images distinct. */
  lemma PermutationKeepsInjective<T, K>(s: seq<T>, r: seq<T>, f: T -> K)
    requires multiset(r) == multiset(s) && InjectiveOn(s, f)
    ensures InjectiveOn(r, f)
  {
    forall i, j | 0 <= i < j < |r| ensures f(r[i]) != f(r[j]) {
      if f(r[i]) == f(r[j]) {
        assert r[i] in multiset(s) && r[j] in multiset(s);
        var a :| 0 <= a < |s| && s[a] == r[i];
        var b :| 0 <= b < |s| && s[b] == r[j];
        assert a == b;
        var x := r[i];
        assert r == r[..j] + [r[j]] + r[j + 1..];
        assert x in multiset(r[..j]) by { assert r[..j][i] == x; }
        assert multiset(r)[x] >= 2;
        TwoOccurrences(s, x);
        assert false;
      }
    }
  }

  // ---------------------------------------------------------------------
  // Small inputs, spelled out.

  /** `SortBy` on three elements whose keys are `b < c < a`. */
  lemma SortRotate<T>(a: T, b: T, c: T, key: T -> int)
    requires key(b) < key(c) < key(a)
    ensures SortBy([a, b, c], key) == [b, c, a]
  {
    SortThree(a, b, c, key);
    SortInOrder(b, c, key);
    InsertPastFirst(a, b, c, key);
    InsertPast(a, c, key);
    assert [b] + [c, a] == [b, c, a];
  }

  /** `SortBy` on three elements whose keys are `c < b < a`. */
  lemma SortReverse<T>(a: T, b: T, c: T, key: T -> int)
    requires key(c) < key(b) < key(a)
    ensures SortBy([a, b, c], key) == [c, b, a]
  {
    SortThree(a, b, c, key);
    SortSwap(b, c, key);
    InsertPastFirst(a, c, b, key);
    InsertPast(a, b, key);
    assert [c] + [b, a] == [c, b, a];
  }

  /** Insertion sort inserts the head into the sorted tail. */
  lemma SortThree<T>(a: T, b: T, c: T, key: T -> int)
    ensures SortBy([a, b, c], key) == Insert(a, SortBy([b, c], key), key)
  {
    assert [a, b, c][1..] == [b, c];
  }

  /** An element with a larger key goes behind a smaller one. */
  lemma InsertPast<T>(x: T, y: T, key: T -> int)
    requires key(y) < key(x)
    ensures Insert(x, [y], key) == [y, x]
  {
    assert [y][1..] == [];
  }

  lemma InsertPastFirst<T>(x: T, y: T, z: T, key: T -> int)
    requires key(y) < key(x)
    ensures Insert(x, [y, z], key) == [y] + Insert(x, [z], key)
  {
    assert [y, z][1..] == [z];
  }

  /** `SortBy` on two elements already in order. */
  lemma SortInOrder<T>(a: T, b: T, key: T -> int)
    requires key(a) <= key(b)
    ensures SortBy([a, b], key) == [a, b]
  {
    assert [a, b][1..] == [b] && [b][1..] == [];
    assert SortBy([b], key) == [b];
  }

  /** `SortBy` on two elements in reverse order. */
  lemma SortSwap<T>(a: T, b: T, key: T -> int)
    requires key(b) < key(a)
    ensures SortBy([a, b], key) == [b, a]
  {
    assert [a, b][1..] == [b] && [b][1..] == [];
    assert SortBy([b], key) == [b];
    InsertPast(a, b, key);
  }
}
