/** What the library sort calls of the economizer promise: a permutation in order. */
module Sorting {

  /** A strict total order: no element is below itself, and of two elements one is below the other. */
  ghost predicate StrictOrder<T(!new)>(less: (T, T) -> bool) {
    && (forall x :: !less(x, x))
    && (forall x, y, z :: less(x, y) && less(y, z) ==> less(x, z))
    && (forall x, y :: less(x, y) || less(y, x) || x == y)
  }

  /** A strict order in which elements may tie: what is above x or below z has no gap between them. */
  ghost predicate WeakOrder<T(!new)>(less: (T, T) -> bool) {
    && (forall x, y :: less(x, y) ==> !less(y, x))
    && (forall x, y, z :: less(x, z) ==> less(x, y) || less(y, z))
  }

  lemma StrictIsWeak<T(!new)>(less: (T, T) -> bool)
    requires StrictOrder(less)
    ensures WeakOrder(less)
  {
    forall x, y, z | less(x, z) ensures less(x, y) || less(y, z) {
      assert less(x, y) || less(y, x) || x == y;
    }
  }

  ghost predicate Sorted<T>(s: seq<T>, less: (T, T) -> bool) {
    forall i, j | 0 <= i < j < |s| :: !less(s[j], s[i])
  }

  function Insert<T>(x: T, s: seq<T>, less: (T, T) -> bool): (r: seq<T>)
    ensures multiset(r) == multiset{x} + multiset(s)
  {
    if s == [] then [x]
    else if less(s[0], x) then
      assert s == [s[0]] + s[1..];
      [s[0]] + Insert(x, s[1..], less)
    else [x] + s
  }

  /** A stable sort. */
  function Sort<T>(s: seq<T>, less: (T, T) -> bool): (r: seq<T>)
    ensures multiset(r) == multiset(s) && |r| == |s|
  {
    if s == [] then []
    else
      assert s == [s[0]] + s[1..];
      var r := Insert(s[0], Sort(s[1..], less), less);
      assert |multiset(r)| == |r|;
      r
  }

  lemma {:induction false} InsertSorted<T(!new)>(x: T, s: seq<T>, less: (T, T) -> bool)
    requires WeakOrder(less) && Sorted(s, less)
    ensures Sorted(Insert(x, s, less), less)
  {
    var r := Insert(x, s, less);
    if s != [] && less(s[0], x) {
      InsertSorted(x, s[1..], less);
      forall j | 0 < j < |r| ensures !less(r[j], r[0]) {
        assert r[j] in multiset(r[1..]) && r[1..] == Insert(x, s[1..], less);
        assert r[j] == x || r[j] in s[1..];
      }
    } else {
      forall j | 0 < j < |r| ensures !less(r[j], r[0]) {
        assert r[j] == s[j - 1];
      }
    }
  }

  lemma {:induction false} SortSorted<T(!new)>(s: seq<T>, less: (T, T) -> bool)
    requires WeakOrder(less)
    ensures Sorted(Sort(s, less), less)
  {
    if s != [] {
      SortSorted(s[1..], less);
      InsertSorted(s[0], Sort(s[1..], less), less);
    }
  }

  /** Of two different elements of s one is below the other. */
  ghost predicate TotalOn<T>(s: seq<T>, less: (T, T) -> bool) {
    forall x, y | x in s && y in s :: less(x, y) || less(y, x) || x == y
  }

  /** A sequence in order is settled by its elements alone: the order they came in leaves no trace. */
  lemma {:induction false} SortedUnique<T(!new)>(s: seq<T>, t: seq<T>, less: (T, T) -> bool)
    requires WeakOrder(less) && TotalOn(s, less) && Sorted(s, less) && Sorted(t, less) && multiset(s) == multiset(t)
    ensures s == t
  {
    if s == [] {
      assert |multiset(t)| == 0;
    } else {
      FirstSame(s, t, less);
      WithoutFirst(s);
      WithoutFirst(t);
      assert TotalOn(s[1..], less) by {
        assert forall x <- s[1..] :: x in s;
      }
      hide TotalOn;
      SortedUnique(s[1..], t[1..], less);
    }
  }

  lemma WithoutFirst<T>(s: seq<T>)
    requires s != []
    ensures s == [s[0]] + s[1..] && multiset(s[1..]) == multiset(s) - multiset{s[0]}
  {
    assert s == [s[0]] + s[1..];
  }

  lemma FirstSame<T(!new)>(s: seq<T>, t: seq<T>, less: (T, T) -> bool)
    requires TotalOn(s, less) && Sorted(s, less) && Sorted(t, less) && multiset(s) == multiset(t) && s != []
    ensures t != [] && s[0] == t[0]
  {
    assert s[0] in multiset(s);
    var j :| 0 <= j < |t| && t[j] == s[0];
    assert t[0] in multiset(t);
    var i :| 0 <= i < |s| && s[i] == t[0];
    assert i == 0 || !less(s[i], s[0]);
    assert j == 0 || !less(t[j], t[0]);
  }

  /** The elements a key function puts in one class, in the order they stand. */
  function Class<T>(s: seq<T>, key: T -> int, k: int): seq<T> {
    if s == [] then [] else if key(s[0]) == k then [s[0]] + Class(s[1..], key, k) else Class(s[1..], key, k)
  }

  lemma {:induction false} InsertStable<T>(x: T, s: seq<T>, less: (T, T) -> bool, key: T -> int, k: int)
    requires forall a, b | a in [x] + s && b in [x] + s && key(a) == key(b) :: !less(a, b)
    ensures Class(Insert(x, s, less), key, k) == Class([x] + s, key, k)
  {
    assert ([x] + s)[1..] == s;
    if s != [] && less(s[0], x) {
      assert s == [s[0]] + s[1..];
      assert s[0] in [x] + s && x in [x] + s;
      InsertStable(x, s[1..], less, key, k);
      var r := Insert(x, s[1..], less);
      assert ([s[0]] + r)[1..] == r && ([x] + s[1..])[1..] == s[1..];
      assert key(x) != key(s[0]);
    }
  }

  /** Sorting leaves elements that tie in the order they came in. */
  lemma {:induction false} SortStable<T>(s: seq<T>, less: (T, T) -> bool, key: T -> int, k: int)
    requires forall a, b | a in s && b in s && key(a) == key(b) :: !less(a, b)
    ensures Class(Sort(s, less), key, k) == Class(s, key, k)
  {
    if s != [] {
      var r := Sort(s[1..], less);
      assert s == [s[0]] + s[1..];
      forall a | a in [s[0]] + r ensures a in s {
        assert a == s[0] || a in multiset(r);
      }
      SortStable(s[1..], less, key, k);
      InsertStable(s[0], r, less, key, k);
      assert ([s[0]] + r)[1..] == r;
    }
  }

  /** Byte order on strings, as Go compares them. */
  predicate Below(a: string, b: string) {
    b != "" && (a == "" || a[0] < b[0] || (a[0] == b[0] && Below(a[1..], b[1..])))
  }

  lemma {:induction false} BelowIrreflexive(a: string)
    ensures !Below(a, a)
  {
    if a != "" {
      BelowIrreflexive(a[1..]);
    }
  }

  lemma {:induction false} BelowTransitive(a: string, b: string, c: string)
    requires Below(a, b) && Below(b, c)
    ensures Below(a, c)
  {
    if a != "" && a[0] == b[0] && b[0] == c[0] {
      BelowTransitive(a[1..], b[1..], c[1..]);
    }
  }

  lemma {:induction false} BelowTotal(a: string, b: string)
    ensures Below(a, b) || Below(b, a) || a == b
  {
    if a != "" && b != "" && a[0] == b[0] {
      BelowTotal(a[1..], b[1..]);
      assert a == [a[0]] + a[1..] && b == [b[0]] + b[1..];
    }
  }

  lemma BelowStrictOrder()
    ensures StrictOrder(Below)
  {
    forall a ensures !Below(a, a) {
      BelowIrreflexive(a);
    }
    forall a, b, c | Below(a, b) && Below(b, c) ensures Below(a, c) {
      BelowTransitive(a, b, c);
    }
    forall a, b ensures Below(a, b) || Below(b, a) || a == b {
      BelowTotal(a, b);
    }
  }

  predicate Distinct<T(==)>(s: seq<T>) {
    forall i, j | 0 <= i < j < |s| :: s[i] != s[j]
  }

  predicate NoTwins<T(==)>(s: seq<T>) {
    forall i | 0 < i < |s| :: s[i] != s[i - 1]
  }

  /** In a sorted sequence two equal elements make two equal neighbours. */
  lemma NeighboursTell<T(!new)>(s: seq<T>, less: (T, T) -> bool)
    requires StrictOrder(less) && Sorted(s, less)
    ensures NoTwins(s) <==> Distinct(s)
  {
    if i, j :| 0 <= i < j < |s| && s[i] == s[j] {
      assert s[i + 1] == s[i] by {
        if i + 1 < j {
          assert !less(s[i + 1], s[i]) && !less(s[j], s[i + 1]);
        }
      }
      assert !(s[i + 1] != s[(i + 1) - 1]);
    }
  }

  lemma DistinctCons<T>(x: T, s: seq<T>)
    ensures Distinct([x] + s) <==> x !in s && Distinct(s)
  {
    var t := [x] + s;
    assert forall i | 0 < i < |t| :: t[i] == s[i - 1];
    if Distinct(t) {
      forall i | 0 <= i < |s| ensures s[i] != x {
        assert t[0] != t[i + 1];
      }
      forall i, j | 0 <= i < j < |s| ensures s[i] != s[j] {
        assert t[i + 1] != t[j + 1];
      }
    }
  }

  lemma {:induction false} InsertDistinct<T>(x: T, s: seq<T>, less: (T, T) -> bool)
    ensures Distinct(Insert(x, s, less)) <==> x !in s && Distinct(s)
  {
    if s != [] && less(s[0], x) {
      var tail := Insert(x, s[1..], less);
      InsertDistinct(x, s[1..], less);
      DistinctCons(s[0], tail);
      DistinctCons(s[0], s[1..]);
      assert s == [s[0]] + s[1..];
      assert s[0] in multiset(tail) <==> s[0] == x || s[0] in multiset(s[1..]);
    } else {
      DistinctCons(x, s);
    }
  }

  /** Sorting neither makes nor hides a repeated element. */
  lemma {:induction false} SortDistinct<T>(s: seq<T>, less: (T, T) -> bool)
    ensures Distinct(Sort(s, less)) <==> Distinct(s)
  {
    if s != [] {
      SortDistinct(s[1..], less);
      InsertDistinct(s[0], Sort(s[1..], less), less);
      DistinctCons(s[0], s[1..]);
      assert s == [s[0]] + s[1..];
      assert s[0] in multiset(Sort(s[1..], less)) <==> s[0] in multiset(s[1..]);
    }
  }
}
