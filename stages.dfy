/**
 * The intermediate stages of `snakestream.core.Stream` as transformers of
 * finite sequences. Each Python stage is an async generator that pulls its
 * upstream element by element and re-yields; here the upstream is the
 * finite sequence it would deliver and the stage is the sequence it yields.
 * User callbacks (predicates, mappers, consumers, flat-mappers) are total
 * functions; whether they are coroutines does not change what is yielded.
 */
module Stages {

  /** `a` occurs inside `b` in the same relative order, possibly with gaps. */
  predicate IsSubsequence<T(==)>(a: seq<T>, b: seq<T>)
    decreases |b|
  {
    a == [] || (b != [] && ((a[0] == b[0] && IsSubsequence(a[1..], b[1..])) || IsSubsequence(a, b[1..])))
  }

  /** No value occurs twice. */
  predicate NoDuplicates<T(==)>(s: seq<T>)
  {
    forall i, j :: 0 <= i < j < |s| ==> s[i] != s[j]
  }

  /** The position of the first occurrence of `x` in `s`. */
  function IndexOf<T(==)>(s: seq<T>, x: T): (k: nat)
    requires x in s
    ensures k < |s| && s[k] == x && x !in s[..k]
  {
    if s[0] == x then 0
    else
      var k := 1 + IndexOf(s[1..], x);
      assert s[..k] == [s[0]] + s[1..][..k - 1];
      k
  }

  // ---------------------------------------------------------------------
  // filter
  // ---------------------------------------------------------------------

  /** `Stream.filter`: re-yields the elements whose predicate holds. */
  function Filter<T>(p: T -> bool, s: seq<T>): (r: seq<T>)
    ensures |r| <= |s|
  {
    if s == [] then []
    else if p(s[0]) then [s[0]] + Filter(p, s[1..])
    else Filter(p, s[1..])
  }

  /**
   * Filter keeps every occurrence of an accepted value and no occurrence of
   * a rejected one.
   */
  lemma {:induction false} FilterKeepsExactlyAccepted<T(!new)>(p: T -> bool, s: seq<T>)
    ensures forall x :: multiset(Filter(p, s))[x] == if p(x) then multiset(s)[x] else 0
  {
    if s != [] {
      FilterKeepsExactlyAccepted(p, s[1..]);
      assert s == [s[0]] + s[1..];
    }
  }

  /** The elements Filter keeps stay in their source order. */
  lemma {:induction false} FilterIsSubsequence<T>(p: T -> bool, s: seq<T>)
    ensures IsSubsequence(Filter(p, s), s)
  {
    if s != [] {
      FilterIsSubsequence(p, s[1..]);
    }
  }

  /** Filtering a concatenation filters each part: the stage is element-wise. */
  lemma {:induction false} FilterAppend<T>(p: T -> bool, a: seq<T>, b: seq<T>)
    ensures Filter(p, a + b) == Filter(p, a) + Filter(p, b)
  {
    if a == [] {
      assert a + b == b;
    } else {
      assert (a + b)[0] == a[0] && (a + b)[1..] == a[1..] + b;
      FilterAppend(p, a[1..], b);
      if p(a[0]) {
        assert Filter(p, a + b) == [a[0]] + Filter(p, a[1..] + b);
      } else {
        assert Filter(p, a + b) == Filter(p, a[1..] + b);
      }
    }
  }

  /** Two filters in a row keep exactly what their conjunction keeps. */
  lemma {:induction false} FilterFilter<T>(p: T -> bool, q: T -> bool, s: seq<T>)
    ensures Filter(q, Filter(p, s)) == Filter(x => p(x) && q(x), s)
  {
    if s != [] {
      FilterFilter(p, q, s[1..]);
    }
  }

  /** When the predicate rejects every element, nothing is yielded. */
  lemma {:induction false} FilterRejectsAll<T>(p: T -> bool, s: seq<T>)
    requires forall i :: 0 <= i < |s| ==> !p(s[i])
    ensures Filter(p, s) == []
  {
    if s != [] {
      FilterRejectsAll(p, s[1..]);
    }
  }

  // ---------------------------------------------------------------------
  // map
  // ---------------------------------------------------------------------

  /** `Stream.map`: one output per input, the mapper's image, in order. */
  function Map<T, U>(mapper: T -> U, s: seq<T>): (r: seq<U>)
    ensures |r| == |s|
    ensures forall i :: 0 <= i < |s| ==> r[i] == mapper(s[i])
  {
    if s == [] then [] else [mapper(s[0])] + Map(mapper, s[1..])
  }

  /** Mapping a concatenation maps each part. */
  lemma MapAppend<T, U>(mapper: T -> U, a: seq<T>, b: seq<T>)
    ensures Map(mapper, a + b) == Map(mapper, a) + Map(mapper, b)
  {
  }

  // ---------------------------------------------------------------------
  // peek
  // ---------------------------------------------------------------------

  /** What a peek stage yields, and the effects of its consumer calls in call order. */
  datatype Peeked<T, E> = Peeked(emitted: seq<T>, effects: seq<E>)

  /**
   * `Stream.peek`: the consumer is called once per element, in order, and
   * every element is re-yielded unchanged.
   */
  function Peek<T, E>(consumer: T -> E, s: seq<T>): (r: Peeked<T, E>)
    ensures |r.emitted| == |s| && |r.effects| == |s|
    ensures forall i :: 0 <= i < |s| ==> r.emitted[i] == s[i] && r.effects[i] == consumer(s[i])
  {
    if s == [] then Peeked([], [])
    else
      var rest := Peek(consumer, s[1..]);
      Peeked([s[0]] + rest.emitted, [consumer(s[0])] + rest.effects)
  }

  // ---------------------------------------------------------------------
  // flat_map
  // ---------------------------------------------------------------------

  /**
   * `Stream.flat_map`: for each outer element in order, all elements of the
   * stream the flat-mapper builds for it. A value is yielded iff it belongs
   * to the inner stream of some outer element.
   */
  function FlatMap<T, U(==,!new)>(flatMapper: T -> seq<U>, s: seq<T>): (r: seq<U>)
    ensures forall y :: y in r <==> exists i :: 0 <= i < |s| && y in flatMapper(s[i])
  {
    if s == [] then []
    else
      var rest := FlatMap(flatMapper, s[1..]);
      assert forall i :: 1 <= i < |s| ==> s[1..][i - 1] == s[i];
      flatMapper(s[0]) + rest
  }

  /** Flattening a concatenation of outer elements flattens each part in outer order. */
  lemma {:induction false} FlatMapAppend<T, U(!new)>(flatMapper: T -> seq<U>, a: seq<T>, b: seq<T>)
    ensures FlatMap(flatMapper, a + b) == FlatMap(flatMapper, a) + FlatMap(flatMapper, b)
  {
    if a == [] {
      assert a + b == b;
    } else {
      assert (a + b)[0] == a[0] && (a + b)[1..] == a[1..] + b;
      FlatMapAppend(flatMapper, a[1..], b);
      assert FlatMap(flatMapper, a + b) == flatMapper(a[0]) + FlatMap(flatMapper, a[1..] + b);
    }
  }

  /** One outer element yields exactly the elements of its inner stream, in their order. */
  lemma FlatMapSingleton<T, U(!new)>(flatMapper: T -> seq<U>, x: T)
    ensures FlatMap(flatMapper, [x]) == flatMapper(x)
  {
    assert [x][1..] == [];
  }

  // ---------------------------------------------------------------------
  // distinct
  // ---------------------------------------------------------------------

  /**
   * What `Stream.distinct` yields when its `seen` set starts as `seen`: each
   * value not in `seen`, once, at its first occurrence.
   */
  function DistinctFrom<T(==)>(seen: set<T>, s: seq<T>): (r: seq<T>)
    ensures |r| <= |s|
    decreases |s|
  {
    if s == [] then []
    else if s[0] in seen then DistinctFrom(seen, s[1..])
    else [s[0]] + DistinctFrom(seen + {s[0]}, s[1..])
  }

  /**
   * `distinct` yields each value at most once, yields exactly the values of
   * the input not seen before, keeps them in input order, and orders them
   * by their first occurrences in the input.
   */
  lemma {:induction false} DistinctFromProperties<T(!new)>(seen: set<T>, s: seq<T>)
    ensures NoDuplicates(DistinctFrom(seen, s))
    ensures forall x :: x in DistinctFrom(seen, s) <==> x in s && x !in seen
    ensures IsSubsequence(DistinctFrom(seen, s), s)
    ensures forall i, j :: 0 <= i < j < |DistinctFrom(seen, s)| ==>
      IndexOf(s, DistinctFrom(seen, s)[i]) < IndexOf(s, DistinctFrom(seen, s)[j])
    decreases |s|
  {
    if s != [] {
      assert s == [s[0]] + s[1..];
      var r := DistinctFrom(seen, s);
      if s[0] in seen {
        DistinctFromProperties(seen, s[1..]);
        forall x | x in r ensures IndexOf(s, x) == 1 + IndexOf(s[1..], x) {
        }
      } else {
        var rest := DistinctFrom(seen + {s[0]}, s[1..]);
        DistinctFromProperties(seen + {s[0]}, s[1..]);
        assert r == [s[0]] + rest;
        forall x | x in rest ensures IndexOf(s, x) == 1 + IndexOf(s[1..], x) {
        }
        forall i, j | 0 <= i < j < |r| ensures IndexOf(s, r[i]) < IndexOf(s, r[j]) {
          if i > 0 {
            assert r[i] == rest[i - 1] && r[j] == rest[j - 1];
          } else {
            assert r[j] == rest[j - 1];
          }
        }
      }
    }
  }

  /** What `distinct` yields for a prefix of its input is never longer than what it yields for the whole. */
  lemma {:induction false} DistinctFromPrefixShorter<T>(seen: set<T>, a: seq<T>, b: seq<T>)
    ensures |DistinctFrom(seen, a)| <= |DistinctFrom(seen, a + b)|
    decreases |a|
  {
    if a != [] {
      assert (a + b)[0] == a[0] && (a + b)[1..] == a[1..] + b;
      if a[0] in seen {
        DistinctFromPrefixShorter(seen, a[1..], b);
      } else {
        DistinctFromPrefixShorter(seen + {a[0]}, a[1..], b);
      }
    }
  }

  /** One step of `distinct` at position `i`: skip a seen value, else yield it and remember it. */
  lemma DistinctStep<T(!new)>(seen: set<T>, s: seq<T>, i: nat)
    requires i < |s|
    ensures DistinctFrom(seen, s[i..]) ==
      if s[i] in seen then DistinctFrom(seen, s[i + 1..])
      else [s[i]] + DistinctFrom(seen + {s[i]}, s[i + 1..])
  {
    assert s[i..][0] == s[i] && s[i..][1..] == s[i + 1..];
  }

  // ---------------------------------------------------------------------
  // sorted
  // ---------------------------------------------------------------------

  /** Nondecreasing order. */
  predicate IsSorted(s: seq<int>)
  {
    forall i, j :: 0 <= i < j < |s| ==> s[i] <= s[j]
  }

  /** Nonincreasing order. */
  predicate IsSortedDescending(s: seq<int>)
  {
    forall i, j :: 0 <= i < j < |s| ==> s[i] >= s[j]
  }

  /** Inserts `x` before the first element not smaller than it. */
  function Insert(x: int, s: seq<int>): (r: seq<int>)
    ensures multiset(r) == multiset(s) + multiset{x}
  {
    if s == [] || x <= s[0] then [x] + s
    else
      assert s == [s[0]] + s[1..];
      [s[0]] + Insert(x, s[1..])
  }

  /**
   * Inserting into a sorted sequence keeps it sorted, and the new head is
   * either `x` or the old head.
   */
  lemma {:induction false} InsertKeepsSorted(x: int, s: seq<int>)
    requires IsSorted(s)
    ensures IsSorted(Insert(x, s))
    ensures |Insert(x, s)| == |s| + 1
    ensures Insert(x, s)[0] == x || (s != [] && Insert(x, s)[0] == s[0])
  {
    assert |multiset(Insert(x, s))| == |multiset(s)| + 1;
    if s != [] && x > s[0] {
      var t := Insert(x, s[1..]);
      InsertKeepsSorted(x, s[1..]);
      assert s[0] <= t[0];
      var r := [s[0]] + t;
      assert r == Insert(x, s);
      forall i, j | 0 <= i < j < |r| ensures r[i] <= r[j] {
        assert r[j] == t[j - 1];
        if i > 0 {
          assert r[i] == t[i - 1];
        } else {
          assert t[0] <= t[j - 1];
        }
      }
    }
  }

  /**
   * The reference sort of the elements `sorted()` drains: Python's
   * `list.sort` under the natural order of integers.
   */
  function Sort(s: seq<int>): (r: seq<int>)
    ensures IsSorted(r)
    ensures multiset(r) == multiset(s)
  {
    if s == [] then []
    else
      assert s == [s[0]] + s[1..];
      InsertKeepsSorted(s[0], Sort(s[1..]));
      Insert(s[0], Sort(s[1..]))
  }

  /**
   * There is only one sorted permutation of a multiset of integers, so any
   * correct sort (Python's Timsort included) yields what `Sort` yields.
   */
  lemma {:induction false} SortedPermutationUnique(a: seq<int>, b: seq<int>)
    requires IsSorted(a) && IsSorted(b)
    requires multiset(a) == multiset(b)
    ensures a == b
  {
    if a == [] {
      assert |multiset(b)| == 0;
    } else {
      assert |b| == |multiset(b)| == |a|;
      assert a[0] in multiset(b) && b[0] in multiset(a);
      SortedHeadIsLeast(b, a[0]);
      SortedHeadIsLeast(a, b[0]);
      assert a[0] == b[0];
      assert a == [a[0]] + a[1..] && b == [b[0]] + b[1..];
      assert multiset(a) == multiset{a[0]} + multiset(a[1..]);
      assert multiset(b) == multiset{a[0]} + multiset(b[1..]);
      assert multiset(a[1..]) == multiset(a) - multiset{a[0]} == multiset(b[1..]);
      SortedPermutationUnique(a[1..], b[1..]);
    }
  }

  /** The head of a sorted sequence is at most any of its elements. */
  lemma SortedHeadIsLeast(a: seq<int>, y: int)
    requires IsSorted(a) && y in multiset(a)
    ensures a[0] <= y
  {
    var k :| 0 <= k < |a| && a[k] == y;
  }

  /** `reversed(s)`: the elements from last to first. */
  function Reverse<T>(s: seq<T>): (r: seq<T>)
    ensures |r| == |s|
    ensures forall i :: 0 <= i < |s| ==> r[i] == s[|s| - 1 - i]
  {
    if s == [] then [] else Reverse(s[1..]) + [s[0]]
  }

  /** Reversing keeps every element with its multiplicity. */
  lemma {:induction false} ReversePermutes<T>(s: seq<T>)
    ensures multiset(Reverse(s)) == multiset(s)
  {
    if s != [] {
      ReversePermutes(s[1..]);
      assert s == [s[0]] + s[1..];
    }
  }

  /** The reverse of a nondecreasing sequence is nonincreasing. */
  lemma ReverseOfSortedIsDescending(s: seq<int>)
    requires IsSorted(s)
    ensures IsSortedDescending(Reverse(s))
  {
  }
}
