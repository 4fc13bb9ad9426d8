/** Sorting by a strict order, and the order of Go strings. */
module Sorting {
  /** Go's < on strings: lexicographic. */
  predicate Less(a: string, b: string) {
    b != "" && (a == "" || a[0] < b[0] || (a[0] == b[0] && Less(a[1..], b[1..])))
  }

  /** Two strings agree up to i, where the first ends or has the smaller character. */
  predicate LessAt(a: string, b: string, i: int) {
    && 0 <= i <= |a| && i < |b| && (forall k :: 0 <= k < i ==> a[k] == b[k])
    && (i == |a| || a[i] < b[i])
  }

  lemma {:induction false} LessMeans(a: string, b: string)
    ensures Less(a, b) <==> exists i :: LessAt(a, b, i)
  {
    if b != "" && (a == "" || a[0] != b[0]) {
      assert LessAt(a, b, 0) <==> a == "" || a[0] < b[0];
    } else if b != "" {
      LessMeans(a[1..], b[1..]);
      if i :| LessAt(a[1..], b[1..], i) {
        forall k | 0 <= k < i + 1 ensures a[k] == b[k] { if k > 0 { assert a[1..][k - 1] == b[1..][k - 1]; } }
        assert LessAt(a, b, i + 1);
      }
      if i :| LessAt(a, b, i) { assert LessAt(a[1..], b[1..], i - 1); }
    }
  }

  lemma {:induction false} LessIsTotal(a: string, b: string)
    ensures Less(a, b) || Less(b, a) || a == b
    ensures !(Less(a, b) && Less(b, a)) && !Less(a, a)
  {
    if a != "" && b != "" {
      LessIsTotal(a[1..], b[1..]);
      LessIsTotal(a[1..], a[1..]);
      assert a == [a[0]] + a[1..] && b == [b[0]] + b[1..];
    } else if a != "" {
      LessIsTotal(a[1..], a[1..]);
    }
  }

  lemma {:induction false} LessIsTransitive(a: string, b: string, c: string)
    ensures Less(a, b) && Less(b, c) ==> Less(a, c)
  {
    if a != "" && b != "" && c != "" { LessIsTransitive(a[1..], b[1..], c[1..]); }
  }

  /** Lexicographic order on pairs of strings. */
  predicate PairLess(a: (string, string), b: (string, string)) {
    if a.0 != b.0 then Less(a.0, b.0) else Less(a.1, b.1)
  }

  lemma PairLessIsStrict(a: (string, string), b: (string, string), c: (string, string))
    ensures !(PairLess(a, b) && PairLess(b, a))
    ensures PairLess(a, b) && PairLess(b, c) ==> PairLess(a, c)
    ensures PairLess(a, b) ==> PairLess(a, c) || PairLess(c, b)
    ensures PairLess(a, b) || PairLess(b, a) || a == b
  {
    StringFacts(a.0, b.0, c.0);
    StringFacts(b.0, c.0, a.0);
    StringFacts(c.0, a.0, b.0);
    StringFacts(a.1, b.1, c.1);
  }

  lemma StringFacts(a: string, b: string, c: string)
    ensures !(Less(a, b) && Less(b, a))
    ensures Less(a, b) || Less(b, a) || a == b
    ensures Less(a, b) && Less(b, c) ==> Less(a, c)
    ensures Less(a, b) ==> Less(a, c) || Less(c, b)
    ensures !Less(a, a)
  {
    LessIsTotal(a, b);
    LessIsTotal(a, c);
    LessIsTotal(b, c);
    LessIsTransitive(a, b, c);
    LessIsTransitive(c, a, b);
  }

  /** Comparison by a pair of strings. */
  function ByPair<T>(key: T -> (string, string)): (T, T) -> bool { (x, y) => PairLess(key(x), key(y)) }

  lemma ByPairIsStrict<T(!new)>(key: T -> (string, string))
    ensures StrictOrder(ByPair(key))
  {
    forall a, b, c
      ensures !(PairLess(key(a), key(b)) && PairLess(key(b), key(a)))
      ensures PairLess(key(a), key(b)) && PairLess(key(b), key(c)) ==> PairLess(key(a), key(c))
      ensures PairLess(key(a), key(b)) ==> PairLess(key(a), key(c)) || PairLess(key(c), key(b))
    {
      PairLessIsStrict(key(a), key(b), key(c));
    }
  }

  ghost predicate StrictOrder<T(!new)>(lt: (T, T) -> bool) {
    && (forall a, b :: !(lt(a, b) && lt(b, a)))
    && (forall a, b, c {:trigger lt(a, b), lt(b, c)} :: lt(a, b) && lt(b, c) ==> lt(a, c))
    && (forall a, b, c {:trigger lt(a, b), lt(a, c)} {:trigger lt(a, b), lt(c, b)} :: lt(a, b) ==> lt(a, c) || lt(c, b))
  }

  /** No element is less than one before it. */
  predicate Sorted<T>(s: seq<T>, lt: (T, T) -> bool) {
    s != [] ==> Sorted(s[..|s| - 1], lt) && forall i :: 0 <= i < |s| - 1 ==> !lt(s[|s| - 1], s[i])
  }

  lemma {:induction false} SortedPairs<T>(s: seq<T>, lt: (T, T) -> bool)
    ensures Sorted(s, lt) <==> forall i, j :: 0 <= i < j < |s| ==> !lt(s[j], s[i])
  {
    if s != [] { SortedPairs(s[..|s| - 1], lt); }
  }

  function Insert<T>(x: T, s: seq<T>, lt: (T, T) -> bool): seq<T> {
    if s == [] then [x]
    else if lt(x, s[|s| - 1]) then Insert(x, s[..|s| - 1], lt) + [s[|s| - 1]]
    else s + [x]
  }

  /** sort.Slice, up to the order of elements the comparison does not tell apart. */
  function Sort<T>(s: seq<T>, lt: (T, T) -> bool): seq<T> {
    if s == [] then [] else Insert(s[|s| - 1], Sort(s[..|s| - 1], lt), lt)
  }

  lemma {:induction false} InsertRearranges<T>(x: T, s: seq<T>, lt: (T, T) -> bool)
    ensures multiset(Insert(x, s, lt)) == multiset(s) + multiset{x}
    ensures forall y :: y in Insert(x, s, lt) <==> y == x || y in s
  {
    if s != [] {
      assert s == s[..|s| - 1] + [s[|s| - 1]];
      InsertRearranges(x, s[..|s| - 1], lt);
    }
  }

  lemma {:induction false} InsertSorts<T(!new)>(x: T, s: seq<T>, lt: (T, T) -> bool)
    requires StrictOrder(lt) && Sorted(s, lt)
    ensures Sorted(Insert(x, s, lt), lt)
  {
    if s != [] {
      var front, last := s[..|s| - 1], s[|s| - 1];
      if lt(x, last) {
        InsertSorts(x, front, lt);
        InsertRearranges(x, front, lt);
        var r := Insert(x, front, lt);
        forall i | 0 <= i < |r| ensures !lt(last, r[i]) {
          assert r[i] in r;
          if r[i] != x {
            var j :| 0 <= j < |front| && front[j] == r[i];
            assert s[j] == r[i];
          }
        }
      } else {
        forall i | 0 <= i < |s| ensures !lt(x, s[i]) {
          if i < |s| - 1 { assert !lt(last, s[i]); }
        }
      }
    }
  }

  /** A sorted rearrangement. */
  lemma {:induction false} SortSorts<T(!new)>(s: seq<T>, lt: (T, T) -> bool)
    requires StrictOrder(lt)
    ensures Sorted(Sort(s, lt), lt) && multiset(Sort(s, lt)) == multiset(s) && |Sort(s, lt)| == |s|
  {
    if s != [] {
      var front, last := s[..|s| - 1], s[|s| - 1];
      assert s == front + [last];
      SortSorts(front, lt);
      InsertRearranges(last, Sort(front, lt), lt);
      InsertSorts(last, Sort(front, lt), lt);
    }
    assert |multiset(Sort(s, lt))| == |multiset(s)|;
  }

  predicate NoDuplicates<T(==)>(s: seq<T>) { forall i, j :: 0 <= i < j < |s| ==> s[i] != s[j] }

  /** A sequence has no duplicates exactly when no element occurs twice. */
  lemma {:induction false} NoDuplicatesCount<T>(s: seq<T>)
    ensures NoDuplicates(s) <==> forall x :: x in multiset(s) ==> multiset(s)[x] == 1
  {
    if s != [] {
      var front, last := s[..|s| - 1], s[|s| - 1];
      assert s == front + [last];
      NoDuplicatesCount(front);
      if NoDuplicates(s) {
        assert NoDuplicates(front) && last !in front;
        forall x | x in multiset(s) ensures multiset(s)[x] == 1 { if x != last { assert x in multiset(front); } }
      }
      if forall x :: x in multiset(s) ==> multiset(s)[x] == 1 {
        assert last in multiset(s);
        forall x | x in multiset(front) ensures multiset(front)[x] == 1 { assert x in multiset(s); }
        assert last !in multiset(front);
      }
    }
  }

  lemma PermutationKeepsDistinct<T>(a: seq<T>, b: seq<T>)
    requires multiset(a) == multiset(b) && NoDuplicates(a)
    ensures NoDuplicates(b) && |a| == |b| && forall x :: x in a <==> x in b
  {
    NoDuplicatesCount(a);
    NoDuplicatesCount(b);
    assert |multiset(a)| == |multiset(b)|;
    forall x ensures x in a <==> x in b { assert x in multiset(a) <==> x in multiset(b); }
  }

  /** No two elements share a key. */
  predicate DistinctKeys<T>(s: seq<T>, key: T -> (string, string)) {
    forall i, j :: 0 <= i < j < |s| ==> key(s[i]) != key(s[j])
  }

  /** Strictly ascending by key. */
  ghost predicate Ascending<T>(s: seq<T>, key: T -> (string, string)) {
    s != [] ==> Ascending(s[..|s| - 1], key) && forall x :: x in s[..|s| - 1] ==> PairLess(key(x), key(s[|s| - 1]))
  }

  lemma {:induction false} SortedAscends<T>(s: seq<T>, key: T -> (string, string))
    requires Sorted(s, ByPair(key)) && DistinctKeys(s, key)
    ensures Ascending(s, key)
  {
    if s != [] {
      var n := |s| - 1;
      SortedAscends(s[..n], key);
      forall i | 0 <= i < n ensures PairLess(key(s[i]), key(s[n])) {
        assert !ByPair(key)(s[n], s[i]);
        PairLessIsStrict(key(s[i]), key(s[n]), key(s[n]));
      }
    }
  }

  /** Sorting by a key that tells the elements apart leaves no choice of order. */
  lemma {:induction false} AscendingIsUnique<T>(a: seq<T>, b: seq<T>, key: T -> (string, string))
    requires Ascending(a, key) && Ascending(b, key) && multiset(a) == multiset(b)
    ensures a == b
  {
    assert |multiset(a)| == |multiset(b)|;
    if a != [] {
      var n := |a| - 1;
      SameLast(a, b, key);
      WithoutLast(a);
      WithoutLast(b);
      AscendingIsUnique(a[..n], b[..n], key);
    }
  }

  lemma WithoutLast<T>(a: seq<T>)
    requires a != []
    ensures a == a[..|a| - 1] + [a[|a| - 1]] && multiset(a[..|a| - 1]) == multiset(a) - multiset{a[|a| - 1]}
  {
    assert a == a[..|a| - 1] + [a[|a| - 1]];
  }

  lemma SameLast<T>(a: seq<T>, b: seq<T>, key: T -> (string, string))
    requires a != [] && |a| == |b| && Ascending(a, key) && Ascending(b, key) && multiset(a) == multiset(b)
    ensures a[|a| - 1] == b[|b| - 1]
  {
    var n := |a| - 1;
    assert a == a[..n] + [a[n]] && b == b[..n] + [b[n]];
    assert a[n] in multiset(b) && b[n] in multiset(a);
    assert a[n] in b && b[n] in a;
    PairLessIsStrict(key(a[n]), key(b[n]), key(a[n]));
  }

  /** Sequences without duplicates that hold the same elements are permutations of one another. */
  lemma SameElementsSameMultiset<T>(a: seq<T>, b: seq<T>)
    requires NoDuplicates(a) && NoDuplicates(b) && (forall x :: x in a <==> x in b)
    ensures multiset(a) == multiset(b)
  {
    NoDuplicatesCount(a);
    NoDuplicatesCount(b);
    forall x ensures multiset(a)[x] == multiset(b)[x] {
      assert x in a <==> x in multiset(a);
      assert x in b <==> x in multiset(b);
    }
  }
}
