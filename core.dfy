/**
 * `snakestream.core`: the `Stream` builder, the composition of its stage
 * chain over the source, and the terminal operations that drive it.
 *
 * Elements are integers, so `sorted()` without a comparator has Python's
 * natural order and truthiness is `n != 0`. A Python stage is a closure
 * appended to `self._chain`; here it is a `Stage` value naming the stage and
 * holding the user callback, and `ApplyStage` is what the closure yields.
 */
module Core {
  import opened Wrappers
  import Stages
  import Terminals
  import Collectors

  /** One entry of `self._chain`: the closure each builder method appends. */
  datatype Stage =
    | Filter(accept: int -> bool)
    | Map(mapper: int -> int)
    | FlatMap(flatMapper: int -> seq<int>)
    | Sorted(reverse: bool)
    | Distinct
    | Peek(consumer: int -> ())

  /** The exception `flat_map` raises while the pipeline is being built. */
  datatype BuildError = StreamBuildException

  /** Python truthiness of an integer. */
  function Truthy(n: int): bool
  {
    n != 0
  }

  /**
   * What one stage yields when its upstream delivers `s`: map, peek and
   * sorted yield one element per input, filter and distinct never more.
   */
  function ApplyStage(stage: Stage, s: seq<int>): (r: seq<int>)
    ensures stage.Map? || stage.Peek? || stage.Sorted? ==> |r| == |s|
    ensures stage.Filter? || stage.Distinct? ==> |r| <= |s|
  {
    match stage
    case Filter(p) => Stages.Filter(p, s)
    case Map(f) => Stages.Map(f, s)
    case FlatMap(g) => Stages.FlatMap(g, s)
    case Sorted(reverse) =>
      assert |Stages.Sort(s)| == |multiset(Stages.Sort(s))| == |s|;
      if reverse then Stages.Reverse(Stages.Sort(s)) else Stages.Sort(s)
    case Distinct => Stages.DistinctFrom({}, s)
    case Peek(c) => Stages.Peek(c, s).emitted
  }

  /**
   * The chain applied left to right: `fn_k(... fn_1(source))`. A chain of
   * one-for-one stages delivers as many elements as the source.
   */
  function Pipeline(chain: seq<Stage>, source: seq<int>): (r: seq<int>)
    ensures (forall k :: 0 <= k < |chain| ==> chain[k].Map? || chain[k].Peek? || chain[k].Sorted?) ==>
      |r| == |source|
  {
    if chain == [] then source else Pipeline(chain[1..], ApplyStage(chain[0], source))
  }

  /** Running `a + b` is running `a`, then running `b` on what `a` yields. */
  lemma {:induction false} PipelineAppend(a: seq<Stage>, b: seq<Stage>, source: seq<int>)
    ensures Pipeline(a + b, source) == Pipeline(b, Pipeline(a, source))
  {
    if a == [] {
      assert a + b == b;
    } else {
      assert (a + b)[0] == a[0] && (a + b)[1..] == a[1..] + b;
      PipelineAppend(a[1..], b, ApplyStage(a[0], source));
    }
  }

  /**
   * A chain of filters and maps is element-wise: running it over a
   * concatenation runs it over each part, so it keeps the source order.
   */
  lemma {:induction false} PipelineOfFiltersAndMapsIsElementwise(chain: seq<Stage>, a: seq<int>, b: seq<int>)
    requires forall k :: 0 <= k < |chain| ==> chain[k].Filter? || chain[k].Map?
    ensures Pipeline(chain, a + b) == Pipeline(chain, a) + Pipeline(chain, b)
  {
    if chain != [] {
      match chain[0]
      case Filter(p) =>
        Stages.FilterAppend(p, a, b);
        PipelineOfFiltersAndMapsIsElementwise(chain[1..], Stages.Filter(p, a), Stages.Filter(p, b));
      case Map(f) =>
        Stages.MapAppend(f, a, b);
        PipelineOfFiltersAndMapsIsElementwise(chain[1..], Stages.Map(f, a), Stages.Map(f, b));
    }
  }

  // ---------------------------------------------------------------------
  // How much of the source a lazy pipeline pulls
  // ---------------------------------------------------------------------

  /**
   * How many times a stage asks its upstream `s` for an element while its
   * consumer asks it `m` times. A request that finds the upstream exhausted
   * counts too, so `|s| + 1` means the stage drained its upstream. `sorted`
   * drains on its first request; every other stage pulls only until its
   * output has reached `m` elements.
   */
  function StageDemand(stage: Stage, s: seq<int>, m: nat): (k: nat)
    ensures k <= |s| + 1
  {
    if stage.Sorted? then (if m == 0 then 0 else |s| + 1)
    else FirstYielding(stage, s, m, 0)
  }

  /** The least prefix length from `from` on whose stage output reaches `m` elements, else `|s| + 1`. */
  function FirstYielding(stage: Stage, s: seq<int>, m: nat, from: nat): (k: nat)
    requires from <= |s| + 1
    ensures from <= k <= |s| + 1
    decreases |s| + 1 - from
  {
    if from > |s| then |s| + 1
    else if |ApplyStage(stage, s[..from])| >= m then from
    else FirstYielding(stage, s, m, from + 1)
  }

  /** The requests the whole chain makes of the source when its consumer asks `m` times. */
  function Demand(chain: seq<Stage>, source: seq<int>, m: nat): (k: nat)
    ensures k <= |source| + 1
  {
    if chain == [] then (if m <= |source| then m else |source| + 1)
    else StageDemand(chain[0], source, Demand(chain[1..], ApplyStage(chain[0], source), m))
  }

  /** The source elements those requests take: all but a request that found it exhausted. */
  function Pulled(chain: seq<Stage>, source: seq<int>, m: nat): nat
  {
    var d := Demand(chain, source, m);
    if d <= |source| then d else |source|
  }

  /** A stage yields no more for a prefix of its input than for the whole (not so for `sorted`). */
  lemma StagePrefixShorter(stage: Stage, s: seq<int>, k: nat)
    requires !stage.Sorted? && k <= |s|
    ensures |ApplyStage(stage, s[..k])| <= |ApplyStage(stage, s)|
  {
    assert s == s[..k] + s[k..];
    match stage
    case Filter(p) => Stages.FilterAppend(p, s[..k], s[k..]);
    case Map(f) =>
    case FlatMap(g) => Stages.FlatMapAppend(g, s[..k], s[k..]);
    case Distinct => Stages.DistinctFromPrefixShorter({}, s[..k], s[k..]);
    case Peek(c) =>
  }

  lemma {:induction false} FirstYieldingNone(stage: Stage, s: seq<int>, m: nat, from: nat)
    requires !stage.Sorted? && from <= |s| + 1
    requires m > |ApplyStage(stage, s)|
    ensures FirstYielding(stage, s, m, from) == |s| + 1
    decreases |s| + 1 - from
  {
    if from <= |s| {
      StagePrefixShorter(stage, s, from);
      FirstYieldingNone(stage, s, m, from + 1);
    }
  }

  /**
   * A consumer that asks for more elements than the pipeline delivers
   * drains the whole source, through every stage.
   */
  lemma {:induction false} DemandExhausts(chain: seq<Stage>, source: seq<int>, m: nat)
    requires m > |Pipeline(chain, source)|
    ensures Demand(chain, source, m) == |source| + 1
    ensures Pulled(chain, source, m) == |source|
  {
    if chain != [] {
      var out := ApplyStage(chain[0], source);
      DemandExhausts(chain[1..], out, m);
      if !chain[0].Sorted? {
        FirstYieldingNone(chain[0], source, |out| + 1, 0);
      }
    }
  }

  lemma {:induction false} FirstYieldingOfFilter(p: int -> bool, s: seq<int>, from: nat)
    requires from <= Terminals.FirstWhere(s, p, true) + 1
    ensures FirstYielding(Filter(p), s, 1, from) == Terminals.FirstWhere(s, p, true) + 1
    decreases |s| + 1 - from
  {
    var first := Terminals.FirstWhere(s, p, true);
    Terminals.FirstWhereStops(s, p, true);
    if from <= |s| {
      if from <= first {
        Stages.FilterRejectsAll(p, s[..from]);
        FirstYieldingOfFilter(p, s, from + 1);
      } else {
        assert s[..from] == s[..first] + [s[first]];
        Stages.FilterAppend(p, s[..first], [s[first]]);
        assert [s[first]][1..] == [];
      }
    }
  }

  /**
   * `find_any` behind one filter stops pulling right after the first
   * accepted element (or drains the source when there is none).
   */
  lemma FindAnyBehindFilterDemand(p: int -> bool, s: seq<int>)
    ensures Demand([Filter(p)], s, 1) == Terminals.FirstWhere(s, p, true) + 1
  {
    var chain := [Filter(p)];
    assert chain[1..] == [];
    assert Demand(chain[1..], Stages.Filter(p, s), 1) == 1;
    FirstYieldingOfFilter(p, s, 0);
  }

  /**
   * `sorted(reverse)` yields a permutation of what it drained, nondecreasing,
   * or with `reverse=True` the exact reverse of that sorted list.
   */
  lemma SortedStageOrdersAndPermutes(s: seq<int>, reverse: bool)
    ensures multiset(ApplyStage(Sorted(reverse), s)) == multiset(s)
    ensures !reverse ==> Stages.IsSorted(ApplyStage(Sorted(reverse), s))
    ensures reverse ==> Stages.IsSortedDescending(ApplyStage(Sorted(reverse), s))
  {
    Stages.ReversePermutes(Stages.Sort(s));
    Stages.ReverseOfSortedIsDescending(Stages.Sort(s));
  }

  /**
   * The `distinct` closure: `seen` starts empty and only grows; a value is
   * yielded the first time it is seen.
   */
  method RunDistinct(iterable: seq<int>) returns (r: seq<int>)
    ensures r == Stages.DistinctFrom({}, iterable)
  {
    var seen: set<int> := {};
    r := [];
    for i := 0 to |iterable|
      invariant forall x :: x in seen <==> x in r
      invariant r + Stages.DistinctFrom(seen, iterable[i..]) == Stages.DistinctFrom({}, iterable)
    {
      var x := iterable[i];
      Stages.DistinctStep(seen, iterable, i);
      if x in seen {
        continue;
      }
      assert r + Stages.DistinctFrom(seen, iterable[i..]) ==
        (r + [x]) + Stages.DistinctFrom(seen + {x}, iterable[i + 1..]);
      seen := seen + {x};
      r := r + [x];
    }
    assert iterable[|iterable|..] == [];
  }

  /**
   * The `sorted` closure: drains the whole upstream into `cache`, sorts it,
   * then yields it forwards or, with `reverse`, backwards.
   */
  method RunSorted(iterable: seq<int>, reverse: bool) returns (r: seq<int>)
    ensures r == ApplyStage(Sorted(reverse), iterable)
  {
    var cache: seq<int> := [];
    for i := 0 to |iterable|
      invariant cache == iterable[..i]
    {
      cache := cache + [iterable[i]];
    }
    assert cache == iterable;
    cache := Stages.Sort(cache);
    r := [];
    if reverse {
      var k := |cache|;
      while k > 0
        invariant 0 <= k <= |cache|
        invariant r == Stages.Reverse(cache[k..])
      {
        k := k - 1;
        assert cache[k..][1..] == cache[k + 1..];
        r := r + [cache[k]];
      }
    } else {
      for i := 0 to |cache|
        invariant r == cache[..i]
      {
        r := r + [cache[i]];
      }
    }
  }

  /** Calls one closure of the chain on what its upstream delivers. */
  method RunStage(stage: Stage, iterable: seq<int>) returns (r: seq<int>)
    ensures r == ApplyStage(stage, iterable)
  {
    match stage
    case Distinct =>
      r := RunDistinct(iterable);
    case Sorted(reverse) =>
      r := RunSorted(iterable, reverse);
    case _ =>
      r := ApplyStage(stage, iterable);
  }

  /** `Stream` (with `BaseStream`): a source and the chain of stages built on it. */
  class Stream {
    /** `self._stream`: what the normalised source delivers. */
    var source: seq<int>
    /** `self._chain`: the stages in the order the builder methods were called. */
    var chain: seq<Stage>

    constructor (source: seq<int>)
      ensures this.source == source && chain == []
    {
      this.source := source;
      chain := [];
    }

    method Filter(accept: int -> bool) returns (self: Stream)
      modifies this
      ensures self == this && source == old(source)
      ensures chain == old(chain) + [Stage.Filter(accept)]
    {
      chain := chain + [Stage.Filter(accept)];
      return this;
    }

    method Map(mapper: int -> int) returns (self: Stream)
      modifies this
      ensures self == this && source == old(source)
      ensures chain == old(chain) + [Stage.Map(mapper)]
    {
      chain := chain + [Stage.Map(mapper)];
      return this;
    }

    /**
     * A coroutine flat-mapper is refused before anything is appended;
     * otherwise the flat-map closure is appended.
     */
    method FlatMap(flatMapper: int -> seq<int>, isCoroutine: bool) returns (r: Result<Stream, BuildError>)
      modifies this
      ensures source == old(source)
      ensures isCoroutine ==> r == Failure(StreamBuildException) && chain == old(chain)
      ensures !isCoroutine ==> r == Success(this) && chain == old(chain) + [Stage.FlatMap(flatMapper)]
    {
      if isCoroutine {
        return Failure(StreamBuildException);
      }
      chain := chain + [Stage.FlatMap(flatMapper)];
      return Success(this);
    }

    method Sorted(reverse: bool) returns (self: Stream)
      modifies this
      ensures self == this && source == old(source)
      ensures chain == old(chain) + [Stage.Sorted(reverse)]
    {
      chain := chain + [Stage.Sorted(reverse)];
      return this;
    }

    method Distinct() returns (self: Stream)
      modifies this
      ensures self == this && source == old(source)
      ensures chain == old(chain) + [Stage.Distinct]
    {
      chain := chain + [Stage.Distinct];
      return this;
    }

    method Peek(consumer: int -> ()) returns (self: Stream)
      modifies this
      ensures self == this && source == old(source)
      ensures chain == old(chain) + [Stage.Peek(consumer)]
    {
      chain := chain + [Stage.Peek(consumer)];
      return this;
    }

    /**
     * `_sequential(self._chain, iterable)`: pops the first stage, applies it
     * and recurses, so the chain list is empty afterwards.
     */
    method Sequential(iterable: seq<int>) returns (r: seq<int>)
      modifies this
      ensures r == Pipeline(old(chain), iterable)
      ensures chain == [] && source == old(source)
      decreases |chain|
    {
      if |chain| == 0 {
        return iterable;
      }
      if |chain| == 1 {
        var fn := chain[0];
        chain := chain[1..];
        r := RunStage(fn, iterable);
        return;
      }
      var fn := chain[0];
      chain := chain[1..];
      var next := RunStage(fn, iterable);
      r := Sequential(next);
    }

    /** `_compose`: the chain over the source; it consumes the chain. */
    method Compose() returns (r: seq<int>)
      modifies this
      ensures r == Pipeline(old(chain), old(source))
      ensures chain == [] && source == old(source)
    {
      r := Sequential(source);
    }

    /**
     * `collect(to_list)`: drives the composition to the end, so the source
     * is exhausted afterwards.
     */
    method CollectToList() returns (r: seq<int>)
      modifies this
      ensures r == Pipeline(old(chain), old(source))
      ensures chain == [] && source == []
    {
      var xs := Compose();
      r := Collectors.ToList(xs);
      source := [];
    }

    /** `reduce`: the left fold over the composed stream, which it drains. */
    method Reduce<U>(identity: U, accumulator: (U, int) -> U) returns (r: U)
      modifies this
      ensures r == Terminals.FoldLeft(accumulator, identity, Pipeline(old(chain), old(source)))
      ensures chain == [] && source == []
    {
      var xs := Compose();
      r := Terminals.Reduce(xs, identity, accumulator);
      source := [];
    }

    method Count() returns (c: nat)
      modifies this
      ensures c == |Pipeline(old(chain), old(source))|
      ensures chain == [] && source == []
    {
      var xs := Compose();
      c := Terminals.Count(xs);
      source := [];
    }

    /** `find_any` asks the composition once; the source loses what that request pulled. */
    method FindAny() returns (r: Option<int>)
      modifies this
      ensures var xs := Pipeline(old(chain), old(source));
        if xs == [] then r == None else r == Some(xs[0])
      ensures chain == [] && source == old(source)[Pulled(old(chain), old(source), 1)..]
    {
      var stages, s := chain, source;
      var xs := Compose();
      r := Terminals.FindAny(xs);
      source := s[Pulled(stages, s, 1)..];
    }

    /** `all_match` asks until an element fails or the composition is exhausted. */
    method AllMatch(test: int -> bool) returns (r: bool)
      modifies this
      ensures var xs := Pipeline(old(chain), old(source));
        r <==> forall i :: 0 <= i < |xs| ==> test(xs[i])
      ensures var xs := Pipeline(old(chain), old(source));
        chain == [] && source == old(source)[Pulled(old(chain), old(source), Terminals.FirstWhere(xs, test, false) + 1)..]
    {
      var stages, s := chain, source;
      var xs := Compose();
      var requests;
      r, requests := Terminals.AllMatch(xs, test);
      assert requests == Terminals.FirstWhere(xs, test, false) + 1;
      var k := Pulled(stages, s, requests);
      source := s[k..];
    }

    /** `none_match` asks until an element satisfies the predicate or the composition is exhausted. */
    method NoneMatch(test: int -> bool) returns (r: bool)
      modifies this
      ensures var xs := Pipeline(old(chain), old(source));
        r <==> forall i :: 0 <= i < |xs| ==> !test(xs[i])
      ensures var xs := Pipeline(old(chain), old(source));
        chain == [] && source == old(source)[Pulled(old(chain), old(source), Terminals.FirstWhere(xs, test, true) + 1)..]
    {
      var stages, s := chain, source;
      var xs := Compose();
      var requests;
      r, requests := Terminals.NoneMatch(xs, test);
      assert requests == Terminals.FirstWhere(xs, test, true) + 1;
      var k := Pulled(stages, s, requests);
      source := s[k..];
    }

    /** `any_match` asks until an element satisfies the predicate or the composition is exhausted. */
    method AnyMatch(test: int -> bool) returns (r: bool)
      modifies this
      ensures var xs := Pipeline(old(chain), old(source));
        r <==> exists i :: 0 <= i < |xs| && test(xs[i])
      ensures var xs := Pipeline(old(chain), old(source));
        chain == [] && source == old(source)[Pulled(old(chain), old(source), Terminals.FirstWhere(xs, test, true) + 1)..]
    {
      var stages, s := chain, source;
      var xs := Compose();
      var requests;
      r, requests := Terminals.AnyMatch(xs, test);
      assert requests == Terminals.FirstWhere(xs, test, true) + 1;
      var k := Pulled(stages, s, requests);
      source := s[k..];
    }

    /** `max`: `_min_max` with the comparator; it drains the composition. */
    method Max(comparator: (int, int) -> bool) returns (r: Option<int>)
      modifies this
      ensures r == Terminals.Extremum(Pipeline(old(chain), old(source)), comparator, Truthy)
      ensures chain == [] && source == []
    {
      var xs := Compose();
      r := Terminals.MinMax(xs, comparator, Truthy);
      source := [];
    }

    /** `min`: `_min_max` with `not comparator`; it drains the composition. */
    method Min(comparator: (int, int) -> bool) returns (r: Option<int>)
      modifies this
      ensures r == Terminals.Extremum(Pipeline(old(chain), old(source)), Terminals.Negate(comparator), Truthy)
      ensures chain == [] && source == []
    {
      var xs := Compose();
      r := Terminals.MinMax(xs, Terminals.Negate(comparator), Truthy);
      source := [];
    }
  }

  /**
   * Driving `_concat(a, b)`: all of `a`'s composition, then all of `b`'s.
   * Both sources are exhausted afterwards, so when `a` and `b` are the same
   * stream the second composition finds the chain popped and the source
   * drained, and adds nothing.
   */
  method ConcatComposed(a: Stream, b: Stream) returns (r: seq<int>)
    modifies a, b
    ensures r == Pipeline(old(a.chain), old(a.source)) +
      (if a == b then [] else Pipeline(old(b.chain), old(b.source)))
    ensures a.chain == [] && b.chain == [] && a.source == [] && b.source == []
  {
    var first := a.CollectToList();
    var second := b.CollectToList();
    r := first + second;
  }

  /**
   * `Stream.concat(a, b)`: a new stream whose source is what `_concat(a, b)`
   * delivers. The model drives `_concat` at once rather than when the new
   * stream is first driven.
   */
  method Concat(a: Stream, b: Stream) returns (c: Stream)
    modifies a, b
    ensures fresh(c) && c.chain == []
    ensures c.source == Pipeline(old(a.chain), old(a.source)) +
      (if a == b then [] else Pipeline(old(b.chain), old(b.source)))
    ensures a.chain == [] && b.chain == [] && a.source == [] && b.source == []
  {
    var s := ConcatComposed(a, b);
    c := new Stream(s);
  }

  /**
   * Driving a stream a second time: `pop(0)` emptied the chain and the
   * first drive exhausted the source, so the second drive yields nothing.
   */
  method CollectTwice(s: Stream) returns (first: seq<int>, second: seq<int>)
    modifies s
    ensures first == Pipeline(old(s.chain), old(s.source))
    ensures second == []
  {
    first := s.CollectToList();
    second := s.CollectToList();
  }
}
