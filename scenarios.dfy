/**
 * The behaviours the repository's tests pin down, stated over the model:
 * concrete pipelines and the values they deliver.
 */
module Scenarios {
  import opened Wrappers
  import Stages
  import Terminals
  import Collectors
  import Core

  function Above3(x: int): bool { x > 3 }
  function Below6(x: int): bool { x < 6 }
  function Add(a: int, b: int): int { a + b }
  function Greater(a: int, b: int): bool { a > b }

  /** `filter(x > 3).filter(x < 6)` over [1, 2, 3, 4, 5, 6] delivers [4, 5]. */
  lemma TwoFiltersKeepFourAndFive()
    ensures Core.Pipeline([Core.Filter(Above3), Core.Filter(Below6)], [1, 2, 3, 4, 5, 6]) == [4, 5]
  {
    var chain := [Core.Filter(Above3), Core.Filter(Below6)];
    var source := [1, 2, 3, 4, 5, 6];
    assert source[1..] == [2, 3, 4, 5, 6] && [2, 3, 4, 5, 6][1..] == [3, 4, 5, 6];
    assert [3, 4, 5, 6][1..] == [4, 5, 6] && [4, 5, 6][1..] == [5, 6] && [5, 6][1..] == [6] && [6][1..] == [];
    assert Stages.Filter(Above3, [6]) == [6];
    assert Stages.Filter(Above3, [5, 6]) == [5, 6];
    assert Stages.Filter(Above3, [4, 5, 6]) == [4, 5, 6];
    assert Stages.Filter(Above3, source) == [4, 5, 6];
    assert Stages.Filter(Below6, [6]) == [];
    assert Stages.Filter(Below6, [5, 6]) == [5];
    assert Stages.Filter(Below6, [4, 5, 6]) == [4, 5];
    assert chain[1..] == [Core.Filter(Below6)] && chain[1..][1..] == [];
    calc {
      Core.Pipeline(chain, source);
      Core.Pipeline(chain[1..], [4, 5, 6]);
      Core.Pipeline(chain[1..][1..], [4, 5]);
    }
  }

  /** The same pipeline built with the `Stream` builder and driven by `_compose`. */
  method BuildAndComposeTwoFilters() returns (r: seq<int>)
    ensures r == [4, 5]
  {
    var s := new Core.Stream([1, 2, 3, 4, 5, 6]);
    var _ := s.Filter(Above3);
    var _ := s.Filter(Below6);
    assert s.chain == [Core.Filter(Above3), Core.Filter(Below6)];
    TwoFiltersKeepFourAndFive();
    r := s.Compose();
  }

  /** `reduce(0, +)` over [1, 2, 3, 4, 5, 6] is 21. */
  lemma ReduceSumsToTwentyOne()
    ensures Terminals.FoldLeft(Add, 0, [1, 2, 3, 4, 5, 6]) == 21
  {
    assert [1, 2, 3, 4, 5, 6] == [1, 2, 3] + [4, 5, 6];
    Terminals.FoldLeftAppend(Add, 0, [1, 2, 3], [4, 5, 6]);
  }

  /** `flat_map` over [[1, 2], [3, 4]] with each list as the inner stream delivers [1, 2, 3, 4]. */
  lemma FlatMapFlattensInOuterOrder()
    ensures Stages.FlatMap((xs: seq<int>) => xs, [[1, 2], [3, 4]]) == [1, 2, 3, 4]
  {
    var outer: seq<seq<int>> := [[1, 2], [3, 4]];
    assert outer[1..][1..] == [];
  }

  /** `distinct` over [1, 2, 2, 3, 1] delivers [1, 2, 3]. */
  lemma DistinctKeepsFirstOccurrences()
    ensures Stages.DistinctFrom({}, [1, 2, 2, 3, 1]) == [1, 2, 3]
  {
    var s := [1, 2, 2, 3, 1];
    assert s[1..] == [2, 2, 3, 1] && s[1..][1..] == [2, 3, 1];
    assert s[1..][1..][1..] == [3, 1] && s[1..][1..][1..][1..] == [1];
  }

  lemma InsertThreeAfterOneTwo()
    ensures Stages.Insert(3, [1, 2]) == [1, 2, 3]
  {
    assert [1, 2][1..] == [2] && [2][1..] == [];
    assert Stages.Insert(3, []) == [3];
    assert Stages.Insert(3, [2]) == [2, 3];
  }

  lemma SortThreeOneTwo()
    ensures Stages.Sort([3, 1, 2]) == [1, 2, 3]
  {
    assert [3, 1, 2][1..] == [1, 2] && [1, 2][1..] == [2] && [2][1..] == [];
    assert Stages.Sort([2]) == [2];
    assert Stages.Insert(1, [2]) == [1, 2];
    assert Stages.Sort([1, 2]) == [1, 2];
    InsertThreeAfterOneTwo();
  }

  /** `sorted()` over [3, 1, 2] delivers [1, 2, 3], and [3, 2, 1] with `reverse=True`. */
  lemma SortedThreeOneTwo()
    ensures Core.ApplyStage(Core.Sorted(false), [3, 1, 2]) == [1, 2, 3]
    ensures Core.ApplyStage(Core.Sorted(true), [3, 1, 2]) == [3, 2, 1]
  {
    SortThreeOneTwo();
    ReverseOneTwoThree();
  }

  lemma ReverseOneTwoThree()
    ensures Stages.Reverse([1, 2, 3]) == [3, 2, 1]
  {
    assert [1, 2, 3][1..] == [2, 3] && [2, 3][1..] == [3] && [3][1..] == [];
    assert Stages.Reverse([3]) == [3];
    assert Stages.Reverse([2, 3]) == [3, 2];
  }

  /** `max` with `>` skips the falsy 0: over [-3, 0, -5] it answers -3, not 0. */
  lemma MaxSkipsFalsyZero()
    ensures Terminals.Extremum([-3, 0, -5], Greater, Core.Truthy) == Some(-3)
  {
    var xs := [-3, 0, -5];
    assert xs[1..] == [0, -5] && xs[1..][1..] == [-5] && xs[1..][1..][1..] == [];
  }

  /** The matching terminals on an empty stream: all and none match, nothing does any. */
  method MatchOnEmpty() returns (all: bool, none: bool, any: bool)
    ensures all && none && !any
  {
    var requests;
    all, requests := Terminals.AllMatch([], Above3);
    none, requests := Terminals.NoneMatch([], Above3);
    any, requests := Terminals.AnyMatch([], Above3);
  }

  /** `to_list` keeps `None` elements: [1, None, 3, 4] stays as it is; [] gives []. */
  method ToListKeepsNone() returns (withNone: seq<Option<int>>, empty: seq<int>)
    ensures withNone == [Some(1), None, Some(3), Some(4)]
    ensures empty == []
  {
    withNone := Collectors.ToList([Some(1), None, Some(3), Some(4)]);
    empty := Collectors.ToList([]);
  }

  /** The awaited `Stream.concat` of [1, 2, 3, 4] and [5, 6, 7] delivers 1 through 7. */
  method ConcatTwoStreams() returns (c: Core.Stream)
    ensures c.source == [1, 2, 3, 4, 5, 6, 7]
  {
    var a := new Core.Stream([1, 2, 3, 4]);
    var b := new Core.Stream([5, 6, 7]);
    c := Core.Concat(a, b);
  }

  /**
   * The awaited `Stream.concat(a, a)` over [1, 2, 3] delivers [1, 2, 3] once:
   * the second `_compose` of `a` finds its source already drained.
   */
  method ConcatStreamWithItself() returns (c: Core.Stream)
    ensures c.source == [1, 2, 3]
  {
    var a := new Core.Stream([1, 2, 3]);
    c := Core.Concat(a, a);
  }

  /**
   * `filter(x > 3).find_any()` over [1, 2, 3, 4, 5, 6] answers 4 and pulls
   * the source only up to 4, leaving [5, 6] undelivered.
   */
  method FindAnyBehindFilterLeavesRest() returns (r: Option<int>, rest: seq<int>)
    ensures r == Some(4) && rest == [5, 6]
  {
    var source := [1, 2, 3, 4, 5, 6];
    var s := new Core.Stream(source);
    var _ := s.Filter(Above3);
    var chain := [Core.Filter(Above3)];
    assert s.chain == chain && chain[1..] == [];
    AboveThreeFromOneToSix();
    Core.FindAnyBehindFilterDemand(Above3, source);
    assert Core.Pulled(chain, source, 1) == 4;
    r := s.FindAny();
    rest := s.source;
    assert source[4..] == [5, 6];
  }

  lemma AboveThreeFromOneToSix()
    ensures Stages.Filter(Above3, [1, 2, 3, 4, 5, 6]) == [4, 5, 6]
    ensures Terminals.FirstWhere([1, 2, 3, 4, 5, 6], Above3, true) == 3
  {
    var source := [1, 2, 3, 4, 5, 6];
    assert source[1..] == [2, 3, 4, 5, 6] && [2, 3, 4, 5, 6][1..] == [3, 4, 5, 6];
    assert [3, 4, 5, 6][1..] == [4, 5, 6] && [4, 5, 6][1..] == [5, 6] && [5, 6][1..] == [6] && [6][1..] == [];
    assert Stages.Filter(Above3, [6]) == [6];
    assert Stages.Filter(Above3, [5, 6]) == [5, 6];
    assert Stages.Filter(Above3, [4, 5, 6]) == [4, 5, 6];
    assert Terminals.FirstWhere([4, 5, 6], Above3, true) == 0;
  }
}
