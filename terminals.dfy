/**
 * The terminal operations of `snakestream.core.Stream`. Each one drives the
 * composed stream; here the composed stream is the finite sequence `xs` it
 * delivers, and each terminal is the loop the Python method runs over it,
 * proved against a reference definition.
 */
module Terminals {
  import opened Wrappers

  // ---------------------------------------------------------------------
  // reduce
  // ---------------------------------------------------------------------

  /** Left fold from `identity`, in delivery order. */
  function FoldLeft<T, U>(accumulator: (U, T) -> U, identity: U, xs: seq<T>): U
  {
    if xs == [] then identity else FoldLeft(accumulator, accumulator(identity, xs[0]), xs[1..])
  }

  /** Folding a concatenation folds the second part from where the first left off. */
  lemma {:induction false} FoldLeftAppend<T, U>(accumulator: (U, T) -> U, identity: U, a: seq<T>, b: seq<T>)
    ensures FoldLeft(accumulator, identity, a + b) == FoldLeft(accumulator, FoldLeft(accumulator, identity, a), b)
  {
    if a == [] {
      assert a + b == b;
    } else {
      assert (a + b)[0] == a[0] && (a + b)[1..] == a[1..] + b;
      FoldLeftAppend(accumulator, accumulator(identity, a[0]), a[1..], b);
    }
  }

  /** `Stream.reduce`: accumulates every delivered element, left to right. */
  method Reduce<T, U>(xs: seq<T>, identity: U, accumulator: (U, T) -> U) returns (r: U)
    ensures r == FoldLeft(accumulator, identity, xs)
  {
    r := identity;
    for i := 0 to |xs|
      invariant FoldLeft(accumulator, r, xs[i..]) == FoldLeft(accumulator, identity, xs)
    {
      assert xs[i..][0] == xs[i] && xs[i..][1..] == xs[i + 1..];
      r := accumulator(r, xs[i]);
    }
    assert xs[|xs|..] == [];
  }

  // ---------------------------------------------------------------------
  // count, find_any
  // ---------------------------------------------------------------------

  /** `Stream.count`: one increment per delivered element. */
  method Count<T>(xs: seq<T>) returns (c: nat)
    ensures c == |xs|
  {
    c := 0;
    for i := 0 to |xs|
      invariant c == i
    {
      c := c + 1;
    }
  }

  /** `Stream.find_any`: the first delivered element, or `None` when nothing is delivered. */
  method FindAny<T>(xs: seq<T>) returns (r: Option<T>)
    ensures r == None <==> xs == []
    ensures xs != [] ==> r == Some(xs[0])
  {
    for i := 0 to |xs| {
      return Some(xs[i]);
    }
    return None;
  }

  // ---------------------------------------------------------------------
  // all_match, none_match, any_match
  // ---------------------------------------------------------------------

  /**
   * The position of the first element whose test comes out `want`, or
   * `|xs|` when there is none: where a short-circuiting match stops.
   */
  function FirstWhere<T>(xs: seq<T>, test: T -> bool, want: bool): (k: nat)
    ensures k <= |xs|
  {
    if xs == [] then 0
    else if test(xs[0]) == want then 0
    else 1 + FirstWhere(xs[1..], test, want)
  }

  /** `FirstWhere` is where the test first comes out `want`: at it, and at no earlier element. */
  lemma {:induction false} FirstWhereStops<T>(xs: seq<T>, test: T -> bool, want: bool)
    ensures var k := FirstWhere(xs, test, want);
      (k < |xs| ==> test(xs[k]) == want) && forall i :: 0 <= i < k ==> test(xs[i]) != want
  {
    if xs != [] && test(xs[0]) != want {
      FirstWhereStops(xs[1..], test, want);
      assert forall i :: 1 <= i < |xs| ==> xs[1..][i - 1] == xs[i];
    }
  }

  /**
   * `Stream.all_match`: true iff every element satisfies the predicate
   * (so true on empty input). The scan stops at the first element that
   * fails; `requests` is how many times it asked the stream for an element,
   * the last request being the one that found the stream exhausted when
   * nothing failed.
   */
  method AllMatch<T>(xs: seq<T>, test: T -> bool) returns (r: bool, requests: nat)
    ensures r <==> forall i :: 0 <= i < |xs| ==> test(xs[i])
    ensures requests == FirstWhere(xs, test, false) + 1
  {
    FirstWhereStops(xs, test, false);
    for i := 0 to |xs|
      invariant forall k :: 0 <= k < i ==> test(xs[k])
    {
      if !test(xs[i]) {
        return false, i + 1;
      }
    }
    return true, |xs| + 1;
  }

  /**
   * `Stream.none_match`: true iff no element satisfies the predicate (so
   * true on empty input); stops at the first element that does.
   */
  method NoneMatch<T>(xs: seq<T>, test: T -> bool) returns (r: bool, requests: nat)
    ensures r <==> forall i :: 0 <= i < |xs| ==> !test(xs[i])
    ensures requests == FirstWhere(xs, test, true) + 1
  {
    FirstWhereStops(xs, test, true);
    for i := 0 to |xs|
      invariant forall k :: 0 <= k < i ==> !test(xs[k])
    {
      if test(xs[i]) {
        return false, i + 1;
      }
    }
    return true, |xs| + 1;
  }

  /**
   * `Stream.any_match`: true iff some element satisfies the predicate (so
   * false on empty input); stops at the first element that does.
   */
  method AnyMatch<T>(xs: seq<T>, test: T -> bool) returns (r: bool, requests: nat)
    ensures r <==> exists i :: 0 <= i < |xs| && test(xs[i])
    ensures requests == FirstWhere(xs, test, true) + 1
  {
    FirstWhereStops(xs, test, true);
    for i := 0 to |xs|
      invariant forall k :: 0 <= k < i ==> !test(xs[k])
    {
      if test(xs[i]) {
        return true, i + 1;
      }
    }
    return false, |xs| + 1;
  }

  // ---------------------------------------------------------------------
  // max, min, _min_max
  // ---------------------------------------------------------------------

  /**
   * The scan `_min_max` runs once it holds a provisional answer `found`:
   * a later element replaces it only when it is truthy and the comparator
   * orders it before `found`.
   */
  function Scan<T>(comparator: (T, T) -> bool, truthy: T -> bool, found: T, rest: seq<T>): (r: T)
    ensures r == found || r in rest
  {
    if rest == [] then found
    else
      var next := if truthy(rest[0]) && comparator(rest[0], found) then rest[0] else found;
      Scan(comparator, truthy, next, rest[1..])
  }

  /** What `_min_max` returns: `None` for an empty stream, else the scan from the first element. */
  function Extremum<T>(xs: seq<T>, comparator: (T, T) -> bool, truthy: T -> bool): (r: Option<T>)
    ensures r == None <==> xs == []
    ensures r != None ==> r.value in xs
  {
    if xs == [] then None else Some(Scan(comparator, truthy, xs[0], xs[1..]))
  }

  /** The comparator `min` hands to `_min_max`: `not comparator(x, y)`. */
  function Negate<T(!new)>(comparator: (T, T) -> bool): (r: (T, T) -> bool)
    ensures forall x, y :: r(x, y) <==> !comparator(x, y)
  {
    (x, y) => !comparator(x, y)
  }

  /** `_min_max`: keeps the first element, then replaces it as `Scan` describes. */
  method MinMax<T>(xs: seq<T>, comparator: (T, T) -> bool, truthy: T -> bool) returns (found: Option<T>)
    ensures found == Extremum(xs, comparator, truthy)
  {
    found := None;
    for i := 0 to |xs|
      invariant i == 0 <==> found == None
      invariant i > 0 ==> Scan(comparator, truthy, found.value, xs[i..]) == Scan(comparator, truthy, xs[0], xs[1..])
    {
      var n := xs[i];
      if found == None {
        found := Some(n);
        continue;
      }
      assert xs[i..][0] == n && xs[i..][1..] == xs[i + 1..];
      if truthy(n) && comparator(n, found.value) {
        found := Some(n);
      }
    }
    assert xs[|xs|..] == [];
  }

  ghost predicate Irreflexive<T(!new)>(R: (T, T) -> bool)
  {
    forall x :: !R(x, x)
  }

  ghost predicate Transitive<T(!new)>(R: (T, T) -> bool)
  {
    forall x, y, z :: R(x, y) && R(y, z) ==> R(x, z)
  }

  /** `not R` is transitive as well: together with the two above, a strict weak order. */
  ghost predicate NegativelyTransitive<T(!new)>(R: (T, T) -> bool)
  {
    forall x, y, z :: !R(x, y) && !R(y, z) ==> !R(x, z)
  }

  /** Under a transitive comparator the scan only moves to elements ordered before what it held. */
  lemma {:induction false} ScanImproves<T(!new)>(comparator: (T, T) -> bool, truthy: T -> bool, found: T, rest: seq<T>)
    requires Transitive(comparator)
    ensures var r := Scan(comparator, truthy, found, rest); r == found || comparator(r, found)
  {
    if rest != [] {
      var next := if truthy(rest[0]) && comparator(rest[0], found) then rest[0] else found;
      ScanImproves(comparator, truthy, next, rest[1..]);
    }
  }

  /**
   * Under a strict order the scan's answer is not beaten by the element it
   * started from nor by any truthy element it looked at.
   */
  lemma {:induction false} ScanNotBeaten<T(!new)>(comparator: (T, T) -> bool, truthy: T -> bool, found: T, rest: seq<T>)
    requires Transitive(comparator) && Irreflexive(comparator)
    ensures var r := Scan(comparator, truthy, found, rest);
      !comparator(found, r) && forall j :: 0 <= j < |rest| && truthy(rest[j]) ==> !comparator(rest[j], r)
  {
    if rest != [] {
      var next := if truthy(rest[0]) && comparator(rest[0], found) then rest[0] else found;
      var r := Scan(comparator, truthy, next, rest[1..]);
      assert r == Scan(comparator, truthy, found, rest);
      ScanNotBeaten(comparator, truthy, next, rest[1..]);
      ScanImproves(comparator, truthy, next, rest[1..]);
      forall j | 1 <= j < |rest| && truthy(rest[j]) ensures !comparator(rest[j], r) {
        assert rest[1..][j - 1] == rest[j];
      }
    }
  }

  /**
   * Under a total preorder the scan's answer is related to the element it
   * started from and to every truthy element it looked at.
   */
  lemma {:induction false} ScanBelowAll<T(!new)>(comparator: (T, T) -> bool, truthy: T -> bool, found: T, rest: seq<T>)
    requires Transitive(comparator)
    requires forall x, y :: comparator(x, y) || comparator(y, x)
    ensures var r := Scan(comparator, truthy, found, rest);
      comparator(r, found) && forall j :: 0 <= j < |rest| && truthy(rest[j]) ==> comparator(r, rest[j])
  {
    if rest != [] {
      var next := if truthy(rest[0]) && comparator(rest[0], found) then rest[0] else found;
      var r := Scan(comparator, truthy, next, rest[1..]);
      assert r == Scan(comparator, truthy, found, rest);
      ScanBelowAll(comparator, truthy, next, rest[1..]);
      forall j | 1 <= j < |rest| && truthy(rest[j]) ensures comparator(r, rest[j]) {
        assert rest[1..][j - 1] == rest[j];
      }
    }
  }

  /**
   * `max(comparator)`: for a strict order (`comparator(a, b)` meaning `a`
   * beats `b`), no element `_min_max` considers beats the answer. The first
   * element is always considered; later ones only when truthy.
   */
  lemma MaxIsNotBeaten<T(!new)>(xs: seq<T>, comparator: (T, T) -> bool, truthy: T -> bool)
    requires Transitive(comparator) && Irreflexive(comparator)
    ensures var r := Extremum(xs, comparator, truthy);
      forall i :: 0 <= i < |xs| && (i == 0 || truthy(xs[i])) ==> !comparator(xs[i], r.value)
  {
    if xs != [] {
      ScanNotBeaten(comparator, truthy, xs[0], xs[1..]);
      assert forall i :: 1 <= i < |xs| ==> xs[1..][i - 1] == xs[i];
    }
  }

  /**
   * `min(comparator)` runs `_min_max` on the negated comparator. For a
   * strict weak order the answer beats no element that was considered.
   */
  lemma MinBeatsNothing<T(!new)>(xs: seq<T>, comparator: (T, T) -> bool, truthy: T -> bool)
    requires Transitive(comparator) && Irreflexive(comparator) && NegativelyTransitive(comparator)
    ensures var r := Extremum(xs, Negate(comparator), truthy);
      forall i :: 0 <= i < |xs| && (i == 0 || truthy(xs[i])) ==> !comparator(r.value, xs[i])
  {
    if xs != [] {
      var negated := Negate(comparator);
      assert Transitive(negated);
      assert forall x, y :: negated(x, y) || negated(y, x) by {
        forall x, y ensures negated(x, y) || negated(y, x) {
          assert !(comparator(x, y) && comparator(y, x));
        }
      }
      ScanBelowAll(negated, truthy, xs[0], xs[1..]);
      assert forall i :: 1 <= i < |xs| ==> xs[1..][i - 1] == xs[i];
    }
  }
}
