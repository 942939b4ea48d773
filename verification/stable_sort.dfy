/** `Array.prototype.sort` with a comparator that ranks elements by a key, as the
    admin product table and the image preview list use it. The language guarantees
    the sort is stable; the model is a stable insertion sort, and
    `SortedStableIsUnique` shows that any stable sort with the same comparator
    yields the same sequence. */
module StableSort {
  import opened Seqs

  /** `less(a, b)`: an element with key `a` goes strictly before one with key `b`
      (the comparator returns a negative number). */
  ghost predicate StrictOrder<K(!new)>(less: (K, K) -> bool) {
    && (forall a :: !less(a, a))
    && (forall a, b, c :: less(a, b) && less(b, c) ==> less(a, c))
  }

  /** Every two distinct keys are ordered one way or the other. */
  ghost predicate Total<K(!new)>(less: (K, K) -> bool) {
    forall a, b :: a != b ==> less(a, b) || less(b, a)
  }

  ghost predicate Sorted<T, K>(s: seq<T>, key: T -> K, less: (K, K) -> bool) {
    forall i, j :: 0 <= i < j < |s| ==> !less(key(s[j]), key(s[i]))
  }

  function HasKey<T, K(==)>(key: T -> K, k: K): T -> bool {
    x => key(x) == k
  }

  /** Elements that compare equal keep their relative order. */
  ghost predicate Stable<T(!new), K(!new)>(r: seq<T>, s: seq<T>, key: T -> K) {
    forall k :: Filter(r, HasKey(key, k)) == Filter(s, HasKey(key, k))
  }

  /** Puts `x` after every element it does not strictly precede. */
  function Insert<T, K>(t: seq<T>, x: T, key: T -> K, less: (K, K) -> bool): (r: seq<T>)
    ensures multiset(r) == multiset(t) + multiset{x}
  {
    if t == [] then [x]
    else if less(key(x), key(t[0])) then [x] + t
    else
      assert t == [t[0]] + t[1..];
      [t[0]] + Insert(t[1..], x, key, less)
  }

  function SortBy<T, K>(s: seq<T>, key: T -> K, less: (K, K) -> bool): (r: seq<T>)
    ensures multiset(r) == multiset(s)
  {
    if s == [] then []
    else
      assert s == s[..|s| - 1] + [s[|s| - 1]];
      Insert(SortBy(s[..|s| - 1], key, less), s[|s| - 1], key, less)
  }

  lemma {:induction false} InsertSorted<T, K(!new)>(t: seq<T>, x: T, key: T -> K, less: (K, K) -> bool)
    requires StrictOrder(less) && Sorted(t, key, less)
    ensures Sorted(Insert(t, x, key, less), key, less)
  {
    if t != [] && !less(key(x), key(t[0])) {
      InsertSorted(t[1..], x, key, less);
      var r := Insert(t, x, key, less);
      var rest := Insert(t[1..], x, key, less);
      assert multiset(rest) == multiset(t[1..]) + multiset{x};
      forall j | 0 < j < |r| ensures !less(key(r[j]), key(r[0])) {
        assert r[j] == rest[j - 1];
        assert r[j] in multiset(rest);
        if r[j] != x {
          assert r[j] in multiset(t[1..]);
          var m :| 0 <= m < |t[1..]| && t[1..][m] == r[j];
          assert t[m + 1] == r[j];
        }
      }
    }
  }

  /** The result of `SortBy` is sorted by key. */
  lemma {:induction false} SortBySorted<T, K(!new)>(s: seq<T>, key: T -> K, less: (K, K) -> bool)
    requires StrictOrder(less)
    ensures Sorted(SortBy(s, key, less), key, less)
  {
    if s != [] {
      SortBySorted(s[..|s| - 1], key, less);
      InsertSorted(SortBy(s[..|s| - 1], key, less), s[|s| - 1], key, less);
    }
  }

  lemma {:induction false} InsertKeepsClassOrder<T(!new), K(!new)>(t: seq<T>, x: T, key: T -> K, less: (K, K) -> bool, k: K)
    requires StrictOrder(less) && Sorted(t, key, less)
    ensures Filter(Insert(t, x, key, less), HasKey(key, k))
         == Filter(t, HasKey(key, k)) + (if key(x) == k then [x] else [])
  {
    if t == [] {
    } else if less(key(x), key(t[0])) {
      InsertAtFrontClass(t, x, key, less, k);
    } else {
      assert Sorted(t[1..], key, less);
      InsertKeepsClassOrder(t[1..], x, key, less, k);
      InsertPastHeadClass(t, x, key, less, k);
    }
  }

  /** `x` lands in front of a sorted `t`: no element of `t` shares its key. */
  lemma InsertAtFrontClass<T(!new), K(!new)>(t: seq<T>, x: T, key: T -> K, less: (K, K) -> bool, k: K)
    requires StrictOrder(less) && Sorted(t, key, less) && t != [] && less(key(x), key(t[0]))
    ensures Filter(Insert(t, x, key, less), HasKey(key, k))
         == Filter(t, HasKey(key, k)) + (if key(x) == k then [x] else [])
  {
    var p := HasKey(key, k);
    assert Insert(t, x, key, less) == [x] + t;
    FilterConcat([x], t, p);
    if key(x) == k {
      forall y | y in t ensures !p(y) {
        var m :| 0 <= m < |t| && t[m] == y;
        if m > 0 {
          assert !less(key(t[m]), key(t[0]));
        }
      }
      FilterNone(t, p);
    }
  }

  /** `x` goes past the head of `t`, which keeps its place in its key class. */
  lemma InsertPastHeadClass<T(!new), K(!new)>(t: seq<T>, x: T, key: T -> K, less: (K, K) -> bool, k: K)
    requires t != [] && !less(key(x), key(t[0]))
    requires Filter(Insert(t[1..], x, key, less), HasKey(key, k))
          == Filter(t[1..], HasKey(key, k)) + (if key(x) == k then [x] else [])
    ensures Filter(Insert(t, x, key, less), HasKey(key, k))
         == Filter(t, HasKey(key, k)) + (if key(x) == k then [x] else [])
  {
    assert t == [t[0]] + t[1..];
    FilterCons(t[0], Insert(t[1..], x, key, less), t[1..], if key(x) == k then [x] else [], HasKey(key, k));
  }

  lemma FilterCons<T(!new)>(h: T, a: seq<T>, b: seq<T>, extra: seq<T>, p: T -> bool)
    requires Filter(a, p) == Filter(b, p) + extra
    ensures Filter([h] + a, p) == Filter([h] + b, p) + extra
  {
    FilterHead(h, a, p);
    FilterHead(h, b, p);
    PrependAssoc(if p(h) then [h] else [], Filter(a, p), Filter(b, p), extra);
  }

  lemma PrependAssoc<T>(x: seq<T>, fa: seq<T>, fb: seq<T>, extra: seq<T>)
    requires fa == fb + extra
    ensures x + fa == (x + fb) + extra
  {
  }

  /** `SortBy` is stable. */
  lemma {:induction false} SortByStable<T(!new), K(!new)>(s: seq<T>, key: T -> K, less: (K, K) -> bool)
    requires StrictOrder(less)
    ensures Stable(SortBy(s, key, less), s, key)
  {
    forall k ensures Filter(SortBy(s, key, less), HasKey(key, k)) == Filter(s, HasKey(key, k)) {
      SortByClass(s, key, less, k);
    }
  }

  lemma {:induction false} SortByClass<T(!new), K(!new)>(s: seq<T>, key: T -> K, less: (K, K) -> bool, k: K)
    requires StrictOrder(less)
    ensures Filter(SortBy(s, key, less), HasKey(key, k)) == Filter(s, HasKey(key, k))
  {
    if s != [] {
      var init, last := s[..|s| - 1], s[|s| - 1];
      assert s == init + [last];
      SortByClass(init, key, less, k);
      SortBySorted(init, key, less);
      InsertKeepsClassOrder(SortBy(init, key, less), last, key, less, k);
      FilterConcat(init, [last], HasKey(key, k));
    }
  }

  /** For a total order on keys, a sorted, stable permutation is unique: whatever
      stable sort the platform runs, it computes `SortBy`. */
  lemma {:induction false} SortedStableIsUnique<T(!new), K(!new)>(r: seq<T>, s: seq<T>, key: T -> K, less: (K, K) -> bool)
    requires StrictOrder(less) && Total(less)
    requires multiset(r) == multiset(s) && Sorted(r, key, less) && Stable(r, s, key)
    ensures r == SortBy(s, key, less)
  {
    var q := SortBy(s, key, less);
    SortBySorted(s, key, less);
    SortByStable(s, key, less);
    forall k ensures Filter(r, HasKey(key, k)) == Filter(q, HasKey(key, k)) {
      assert Filter(r, HasKey(key, k)) == Filter(s, HasKey(key, k));
      assert Filter(q, HasKey(key, k)) == Filter(s, HasKey(key, k));
    }
    SameClassesSame(r, q, key, less);
  }

  /** Two sorted sequences with the same elements of each key, in the same order, are equal. */
  lemma {:induction false} SameClassesSame<T(!new), K(!new)>(r: seq<T>, q: seq<T>, key: T -> K, less: (K, K) -> bool)
    requires StrictOrder(less) && Total(less)
    requires Sorted(r, key, less) && Sorted(q, key, less)
    requires forall k :: Filter(r, HasKey(key, k)) == Filter(q, HasKey(key, k))
    ensures r == q
    decreases |r| + |q|
  {
    if r == [] || q == [] {
      EmptyClasses(r, q, key);
    } else {
      var k1, k2 := key(r[0]), key(q[0]);
      HeadNotAfter(r, q, key, less);
      HeadNotAfter(q, r, key, less);
      assert k1 == k2;
      var p := HasKey(key, k1);
      assert r == [r[0]] + r[1..] && q == [q[0]] + q[1..];
      FilterConcat([r[0]], r[1..], p);
      FilterConcat([q[0]], q[1..], p);
      assert r[0] == q[0];
      forall k ensures Filter(r[1..], HasKey(key, k)) == Filter(q[1..], HasKey(key, k)) {
        FilterConcat([r[0]], r[1..], HasKey(key, k));
        FilterConcat([q[0]], q[1..], HasKey(key, k));
      }
      SameClassesSame(r[1..], q[1..], key, less);
    }
  }

  lemma EmptyClasses<T(!new), K(!new)>(r: seq<T>, q: seq<T>, key: T -> K)
    requires forall k :: Filter(r, HasKey(key, k)) == Filter(q, HasKey(key, k))
    ensures r == [] <==> q == []
  {
    if r != [] {
      assert r[0] in Filter(r, HasKey(key, key(r[0])));
    }
    if q != [] {
      assert q[0] in Filter(q, HasKey(key, key(q[0])));
    }
  }

  /** The first element of `r` stands somewhere in `q`, so its key cannot go before
      the key of `q`'s first element. */
  lemma HeadNotAfter<T(!new), K(!new)>(r: seq<T>, q: seq<T>, key: T -> K, less: (K, K) -> bool)
    requires StrictOrder(less) && Sorted(q, key, less) && r != [] && q != []
    requires forall k :: Filter(r, HasKey(key, k)) == Filter(q, HasKey(key, k))
    ensures !less(key(r[0]), key(q[0]))
  {
    var k1 := key(r[0]);
    assert r[0] in Filter(r, HasKey(key, k1));
    assert r[0] in q;
    var m :| 0 <= m < |q| && q[m] == r[0];
    if m > 0 {
      assert !less(key(q[m]), key(q[0]));
    }
  }
}
