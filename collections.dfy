/** Sequence and string helpers shared by the resolver: an optional value, duplicate removal,
    order-preserving filtering, Go's byte-wise string order and the sort that uses it. */
module Collections {

  datatype Option<T> = None | Some(value: T)

  /** No element occurs twice. */
  predicate NoDups<T(==)>(s: seq<T>) {
    forall i, j :: 0 <= i < j < |s| ==> s[i] != s[j]
  }

  /** The set of elements of a sequence. */
  function Elems<T>(s: seq<T>): set<T> {
    set x | x in s
  }

  /** Only the empty list has no elements. */
  lemma EmptyList<T>(s: seq<T>)
    ensures s == [] <==> Elems(s) == {}
  {
    if s != [] {
      assert s[0] in Elems(s);
    }
  }

  /** Duplicate removal (`removeDuplicates`, whose body is not part of this model): keeps the first
      occurrence of each element. The resolver relies only on the two ensures clauses. */
  function Dedup<T(==)>(s: seq<T>): (r: seq<T>)
    ensures NoDups(r)
    ensures Elems(r) == Elems(s)
    ensures |r| <= |s|
  {
    if s == [] then []
    else
      var rest := Dedup(s[..|s| - 1]);
      assert s == s[..|s| - 1] + [s[|s| - 1]];
      assert Elems(s) == Elems(s[..|s| - 1]) + {s[|s| - 1]};
      if s[|s| - 1] in rest then rest else rest + [s[|s| - 1]]
  }

  lemma ElemsAppend<T>(a: seq<T>, b: seq<T>)
    ensures Elems(a + b) == Elems(a) + Elems(b)
  {
  }

  lemma ConsConcat<T>(x: T, a: seq<T>, b: seq<T>)
    ensures [x] + (a + b) == ([x] + a) + b
  {
  }

  lemma ConcatCons<T>(a: seq<T>, x: T, b: seq<T>)
    ensures a + ([x] + b) == (a + [x]) + b
  {
  }

  /** Order-preserving filter (`extract`, and `filterMap` as far as the keys go). */
  function Filter<T(!new)>(s: seq<T>, keep: T -> bool): (r: seq<T>)
    ensures |r| <= |s|
    ensures forall x :: x in r <==> x in s && keep(x)
  {
    if s == [] then []
    else Filter(s[..|s| - 1], keep) + (if keep(s[|s| - 1]) then [s[|s| - 1]] else [])
  }

  /** Filtering keeps the order: an element added at the end lands at the end, if kept. */
  lemma FilterSnoc<T(!new)>(s: seq<T>, x: T, keep: T -> bool)
    ensures Filter(s + [x], keep) == Filter(s, keep) + (if keep(x) then [x] else [])
  {
    assert (s + [x])[..|s|] == s;
  }

  /** A filter and the filter by the complementary predicate split the input between them. */
  lemma {:induction false} FilterPartition<T(!new)>(s: seq<T>, keep: T -> bool, drop: T -> bool)
    requires forall x :: drop(x) == !keep(x)
    ensures |Filter(s, keep)| + |Filter(s, drop)| == |s|
  {
    if s != [] {
      FilterPartition(s[..|s| - 1], keep, drop);
    }
  }

  /** Pairs up two sequences position by position (the second may be longer). */
  function Zip<A, B>(a: seq<A>, b: seq<B>): (r: seq<(A, B)>)
    requires |a| <= |b|
    ensures |r| == |a| && forall i :: 0 <= i < |a| ==> r[i] == (a[i], b[i])
  {
    seq(|a|, i requires 0 <= i < |a| => (a[i], b[i]))
  }

  // ---------------------------------------------------------------------------
  // Go's `sort.Strings` order: lexicographic, element by element (for UTF-8 text the
  // byte order and the code point order agree).

  predicate Le(a: string, b: string) {
    |a| == 0 || (|b| > 0 && (a[0] < b[0] || (a[0] == b[0] && Le(a[1..], b[1..]))))
  }

  lemma {:induction false} LeReflexive(a: string)
    ensures Le(a, a)
  {
    if |a| > 0 {
      LeReflexive(a[1..]);
    }
  }

  lemma {:induction false} LeTotal(a: string, b: string)
    ensures Le(a, b) || Le(b, a)
  {
    if |a| > 0 && |b| > 0 && a[0] == b[0] {
      LeTotal(a[1..], b[1..]);
    }
  }

  lemma {:induction false} LeAntisymmetric(a: string, b: string)
    requires Le(a, b) && Le(b, a)
    ensures a == b
  {
    if |a| > 0 && |b| > 0 {
      LeAntisymmetric(a[1..], b[1..]);
      assert a == [a[0]] + a[1..];
      assert b == [b[0]] + b[1..];
    }
  }

  lemma {:induction false} LeTransitive(a: string, b: string, c: string)
    requires Le(a, b) && Le(b, c)
    ensures Le(a, c)
  {
    if |a| > 0 && |b| > 0 && |c| > 0 && a[0] == b[0] == c[0] {
      LeTransitive(a[1..], b[1..], c[1..]);
    }
  }

  /** Non-decreasing in the string order. */
  predicate Sorted(s: seq<string>) {
    forall i, j :: 0 <= i < j < |s| ==> Le(s[i], s[j])
  }

  /** Insert into a sorted sequence before the first larger element. */
  function Insert(x: string, s: seq<string>): (r: seq<string>)
    requires Sorted(s)
    ensures Sorted(r)
    ensures multiset(r) == multiset(s) + multiset{x}
  {
    if s == [] then [x]
    else if Le(x, s[0]) then
      SortedPrepend(x, s);
      [x] + s
    else
      var t := Insert(x, s[1..]);
      HeadBelowInserted(x, s, t);
      SortedPrepend(s[0], t);
      assert s == [s[0]] + s[1..];
      [s[0]] + t
  }

  /** A sorted sequence stays sorted under a new head no larger than its first element, or no
      larger than any of its elements. */
  lemma SortedPrepend(y: string, t: seq<string>)
    requires Sorted(t)
    requires (|t| > 0 && Le(y, t[0])) || forall z :: z in multiset(t) ==> Le(y, z)
    ensures Sorted([y] + t)
  {
    forall j | 0 <= j < |t| ensures Le(y, t[j]) {
      if |t| > 0 && Le(y, t[0]) {
        if j > 0 { LeTransitive(y, t[0], t[j]); }
      } else {
        assert t[j] in multiset(t);
      }
    }
  }

  /** The head of a sorted sequence is below everything its tail holds, and below a larger `x`. */
  lemma HeadBelowInserted(x: string, s: seq<string>, t: seq<string>)
    requires Sorted(s) && |s| > 0 && !Le(x, s[0])
    requires multiset(t) == multiset(s[1..]) + multiset{x}
    ensures forall z :: z in multiset(t) ==> Le(s[0], z)
  {
    LeTotal(x, s[0]);
    forall z | z in multiset(t) ensures Le(s[0], z) {
      if z != x {
        assert z in s[1..];
      }
    }
  }

  /** Insertion sort: the result is sorted and a permutation of the input. */
  function SortStrings(s: seq<string>): (r: seq<string>)
    ensures Sorted(r)
    ensures multiset(r) == multiset(s)
  {
    if s == [] then []
    else
      assert s == s[..|s| - 1] + [s[|s| - 1]];
      Insert(s[|s| - 1], SortStrings(s[..|s| - 1]))
  }

  /** Sorting keeps the element set and the absence of duplicates. */
  lemma SortKeepsElems(s: seq<string>)
    ensures Elems(SortStrings(s)) == Elems(s)
    ensures NoDups(s) ==> NoDups(SortStrings(s))
  {
    var r := SortStrings(s);
    assert forall x :: x in r <==> x in multiset(r);
    assert forall x :: x in s <==> x in multiset(s);
    if NoDups(s) {
      forall i, j | 0 <= i < j < |r| ensures r[i] != r[j] {
        if r[i] == r[j] {
          MultisetTwice(r, i, j);
          NoDupsCount(s, r[i]);
          assert false;
        }
      }
    }
  }

  lemma MultisetTwice(s: seq<string>, i: nat, j: nat)
    requires i < j < |s| && s[i] == s[j]
    ensures multiset(s)[s[i]] >= 2
  {
    assert s == s[..i] + [s[i]] + s[i + 1..j] + [s[j]] + s[j + 1..];
  }

  lemma {:induction false} NoDupsCount(s: seq<string>, x: string)
    requires NoDups(s)
    ensures multiset(s)[x] <= 1
  {
    if s != [] {
      assert s == [s[0]] + s[1..];
      NoDupsCount(s[1..], x);
      if s[0] == x {
        assert x !in s[1..];
      }
    }
  }

  /** The sorted, duplicate-free presentation of a set is unique: two such sequences with the
      same elements are equal. This is what makes the resolver's output reproducible whatever
      order its inputs were enumerated in. */
  lemma {:induction false} SortedUnique(a: seq<string>, b: seq<string>)
    requires Sorted(a) && NoDups(a) && Sorted(b) && NoDups(b)
    requires Elems(a) == Elems(b)
    ensures a == b
  {
    assert a != [] ==> a[0] in Elems(a);
    assert b != [] ==> b[0] in Elems(b);
    if a != [] && b != [] {
      assert a[0] in Elems(b) && b[0] in Elems(a);
      var i :| 0 <= i < |b| && b[i] == a[0];
      var j :| 0 <= j < |a| && a[j] == b[0];
      LeReflexive(a[0]);
      assert Le(b[0], a[0]) by { if i > 0 { assert Le(b[0], b[i]); } }
      assert Le(a[0], b[0]) by { if j > 0 { assert Le(a[0], a[j]); } }
      LeAntisymmetric(a[0], b[0]);
      assert a[0] !in a[1..] && b[0] !in b[1..];
      assert Elems(a[1..]) == Elems(a) - {a[0]};
      assert Elems(b[1..]) == Elems(b) - {b[0]};
      SortedUnique(a[1..], b[1..]);
      assert a == [a[0]] + a[1..];
      assert b == [b[0]] + b[1..];
    }
  }

  /** Sorted, duplicate-free presentation of a sequence's elements (`removeDuplicates` followed by
      `sort.Strings`). */
  function SortedSet(s: seq<string>): (r: seq<string>)
    ensures Sorted(r) && NoDups(r)
    ensures Elems(r) == Elems(s)
  {
    SortKeepsElems(Dedup(s));
    SortStrings(Dedup(s))
  }
}
