/**
 * Shared vocabulary: an optional value (the source's `null`/`undefined`),
 * the order-preserving `Array.prototype.filter`, and subsequences.
 */
module Common {

  datatype Option<T> = None | Some(value: T)

  /** `s.filter(p)`: the elements of `s` that satisfy `p`, in their original order. */
  function Filter<T(!new)>(p: T -> bool, s: seq<T>): (r: seq<T>)
    ensures |r| <= |s|
    ensures forall x :: x in r <==> x in s && p(x)
  {
    if s == [] then [] else (if p(s[0]) then [s[0]] else []) + Filter(p, s[1..])
  }

  /** `a` is obtained from `b` by deleting elements (order preserved). */
  predicate IsSubseq<T(==)>(a: seq<T>, b: seq<T>)
    decreases |b|
  {
    |a| <= |b| && (a == [] || (a[0] == b[0] && IsSubseq(a[1..], b[1..])) || IsSubseq(a, b[1..]))
  }

  lemma {:induction false} SubseqOfSelf<T(!new)>(s: seq<T>)
    ensures IsSubseq(s, s)
  {
    if s != [] {
      SubseqOfSelf(s[1..]);
    }
  }

  /** Filtering never reorders: the result is a subsequence of the input. */
  lemma {:induction false} FilterIsSubseq<T(!new)>(p: T -> bool, s: seq<T>)
    ensures IsSubseq(Filter(p, s), s)
  {
    if s != [] {
      FilterIsSubseq(p, s[1..]);
      var r := Filter(p, s);
      if p(s[0]) {
        assert r[0] == s[0] && r[1..] == Filter(p, s[1..]);
      } else {
        assert r == Filter(p, s[1..]);
      }
    }
  }

  /** A filter whose predicate holds everywhere is the identity. */
  lemma {:induction false} FilterKeepsAll<T(!new)>(p: T -> bool, s: seq<T>)
    requires forall x :: x in s ==> p(x)
    ensures Filter(p, s) == s
  {
    if s != [] {
      FilterKeepsAll(p, s[1..]);
      assert [s[0]] + s[1..] == s;
    }
  }

  /** A filter whose predicate holds nowhere keeps nothing. */
  lemma {:induction false} FilterKeepsNone<T(!new)>(p: T -> bool, s: seq<T>)
    requires forall x :: x in s ==> !p(x)
    ensures Filter(p, s) == []
  {
    if s != [] {
      FilterKeepsNone(p, s[1..]);
    }
  }

  /** Filtering distributes over concatenation. */
  lemma {:induction false} FilterConcat<T(!new)>(p: T -> bool, a: seq<T>, b: seq<T>)
    ensures Filter(p, a + b) == Filter(p, a) + Filter(p, b)
  {
    if a == [] {
      assert a + b == b;
    } else {
      assert (a + b)[0] == a[0] && (a + b)[1..] == a[1..] + b;
      FilterConcat(p, a[1..], b);
    }
  }

  /** Appending elements the predicate rejects does not change the filter. */
  lemma FilterAppendNone<T(!new)>(p: T -> bool, a: seq<T>, b: seq<T>)
    requires forall x :: x in b ==> !p(x)
    ensures Filter(p, a + b) == Filter(p, a)
  {
    FilterConcat(p, a, b);
    FilterKeepsNone(p, b);
    assert Filter(p, a) + [] == Filter(p, a);
  }

  /** Filters by predicates that agree everywhere are equal. */
  lemma {:induction false} FilterSame<T(!new)>(p: T -> bool, q: T -> bool, s: seq<T>)
    requires forall x :: p(x) == q(x)
    ensures Filter(p, s) == Filter(q, s)
  {
    if s != [] {
      FilterSame(p, q, s[1..]);
    }
  }

  /** Filtering twice is filtering once by the conjunction. */
  lemma {:induction false} FilterTwice<T(!new)>(p: T -> bool, q: T -> bool, pq: T -> bool, s: seq<T>)
    requires forall x :: pq(x) == (p(x) && q(x))
    ensures Filter(q, Filter(p, s)) == Filter(pq, s)
  {
    if s != [] {
      FilterTwice(p, q, pq, s[1..]);
      var head := if p(s[0]) then [s[0]] else [];
      assert Filter(p, s) == head + Filter(p, s[1..]);
      FilterConcat(q, head, Filter(p, s[1..]));
      if p(s[0]) {
        assert Filter(q, head) == (if q(s[0]) then [s[0]] else []) + Filter(q, head[1..]);
        assert head[1..] == [];
      }
    }
  }

  /** A stronger predicate keeps a subsequence of what a weaker one keeps. */
  lemma {:induction false} FilterNarrows<T(!new)>(p: T -> bool, q: T -> bool, s: seq<T>)
    requires forall x :: p(x) ==> q(x)
    ensures IsSubseq(Filter(p, s), Filter(q, s))
  {
    if s != [] {
      FilterNarrows(p, q, s[1..]);
      var a, b := Filter(p, s), Filter(q, s);
      var a', b' := Filter(p, s[1..]), Filter(q, s[1..]);
      if p(s[0]) {
        assert a[0] == b[0] && a[1..] == a' && b[1..] == b';
      } else if q(s[0]) {
        assert a == a' && b[1..] == b';
      } else {
        assert a == a' && b == b';
      }
    }
  }

  /** A non-empty sequence is its head followed by its tail. */
  lemma HeadTail<T>(s: seq<T>)
    requires s != []
    ensures s == [s[0]] + s[1..]
  {
  }

  /** Appending after a non-empty sequence keeps the head and appends to the tail. */
  lemma SnocTail<T>(s: seq<T>, x: T)
    requires s != []
    ensures (s + [x])[0] == s[0] && (s + [x])[1..] == s[1..] + [x]
  {
  }

  lemma MultisetCons<T>(s: seq<T>)
    requires s != []
    ensures multiset(s) == multiset{s[0]} + multiset(s[1..])
  {
    assert s == [s[0]] + s[1..];
  }

  /** Two complementary filters of a non-empty sequence: the head goes to exactly one of them. */
  lemma FilterPairCons<T(!new)>(p: T -> bool, q: T -> bool, s: seq<T>)
    requires forall x :: q(x) == !p(x)
    requires s != []
    ensures multiset(Filter(p, s)) + multiset(Filter(q, s))
         == multiset{s[0]} + multiset(Filter(p, s[1..])) + multiset(Filter(q, s[1..]))
  {
    var x, rest := s[0], s[1..];
    if p(x) {
      assert Filter(p, s) == [x] + Filter(p, rest);
      assert Filter(q, s) == Filter(q, rest);
    } else {
      assert Filter(p, s) == Filter(p, rest);
      assert Filter(q, s) == [x] + Filter(q, rest);
    }
  }

  /** Two complementary filters split the input: every element lands in exactly one of them. */
  lemma {:induction false} FilterPartition<T(!new)>(p: T -> bool, q: T -> bool, s: seq<T>)
    requires forall x :: q(x) == !p(x)
    ensures multiset(Filter(p, s)) + multiset(Filter(q, s)) == multiset(s)
  {
    if s != [] {
      FilterPartition(p, q, s[1..]);
      FilterPairCons(p, q, s);
      MultisetCons(s);
    }
  }
}
