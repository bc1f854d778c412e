/**
 * `snakestream.main`: the older pipeline that threads each source element
 * through its intermediaries one at a time. A rejected filter raises
 * `StreamInterrupt` for that element; `collect` drops it, `reduce` does not
 * (see `ReduceAsWritten`).
 */
module PerElement {
  import opened Wrappers
  import Stages
  import Terminals

  /** `IntermediaryType`: the two tags an intermediary can carry. */
  datatype IntermediaryType = Filterer | Mapper

  /**
   * `Intermediary(fn, type)`: the tag and the function travel together, so
   * a filterer holds a predicate and a mapper holds a mapper.
   */
  datatype Intermediary<!T> =
    | FiltererOf(accept: T -> bool)
    | MapperOf(mapper: T -> T)
  {
    function Type(): IntermediaryType
    {
      if FiltererOf? then Filterer else Mapper
    }
  }

  /**
   * What `apply` raises: `StreamInterrupt` for a rejected element, and
   * `RuntimeError('Unknown intermediary type')` for a tag it does not know.
   */
  datatype ApplyError = StreamInterrupt | UnknownIntermediaryType

  /** The exception `reduce` raises when it reads `value` before any assignment. */
  datatype ReduceError = UnboundLocalError

  /**
   * What `apply(x)` returns or raises for the intermediaries `chain`. It
   * can only be interrupted when the chain holds a filterer.
   */
  function Thread<T>(chain: seq<Intermediary<T>>, x: T): (r: Result<T, ApplyError>)
    ensures r.Failure? ==> exists k :: 0 <= k < |chain| && chain[k].FiltererOf?
  {
    if chain == [] then Success(x)
    else
      match chain[0]
      case FiltererOf(p) => if p(x) then Thread(chain[1..], x) else Failure(StreamInterrupt)
      case MapperOf(f) =>
        var r := Thread(chain[1..], f(x));
        assert forall j :: 0 <= j < |chain[1..]| ==> chain[1..][j] == chain[j + 1];
        r
  }

  /**
   * `_compose(*intermediaries)` returns `apply`; this is `apply(x)`: a
   * mapper replaces `x`, an accepting filterer leaves it, a rejecting one
   * raises `StreamInterrupt` and ends the loop.
   */
  method Apply<T>(chain: seq<Intermediary<T>>, x: T) returns (r: Result<T, ApplyError>)
    ensures r == Thread(chain, x)
  {
    var v := x;
    for i := 0 to |chain|
      invariant Thread(chain[i..], v) == Thread(chain, x)
    {
      assert chain[i..][0] == chain[i] && chain[i..][1..] == chain[i + 1..];
      match chain[i]
      case FiltererOf(p) =>
        if !p(v) {
          return Failure(StreamInterrupt);
        }
      case MapperOf(f) =>
        v := f(v);
    }
    assert chain[|chain|..] == [];
    return Success(v);
  }

  /** With a two-constructor datatype the `RuntimeError` branch of `apply` is never taken. */
  lemma {:induction false} ApplyNeverMeetsUnknownType<T>(chain: seq<Intermediary<T>>, x: T)
    ensures Thread(chain, x) != Failure(UnknownIntermediaryType)
  {
    if chain != [] {
      match chain[0]
      case FiltererOf(p) =>
        ApplyNeverMeetsUnknownType(chain[1..], x);
      case MapperOf(f) =>
        ApplyNeverMeetsUnknownType(chain[1..], f(x));
    }
  }

  /**
   * Threading through `a + b` threads through `a` and, only if `a` did not
   * raise, through `b`: after an interrupt no later intermediary runs.
   */
  lemma {:induction false} ThreadAppend<T>(a: seq<Intermediary<T>>, b: seq<Intermediary<T>>, x: T)
    ensures Thread(a + b, x) == match Thread(a, x)
      case Success(v) => Thread(b, v)
      case Failure(e) => Failure(e)
  {
    if a == [] {
      assert a + b == b;
    } else {
      assert (a + b)[0] == a[0] && (a + b)[1..] == a[1..] + b;
      match a[0]
      case FiltererOf(p) =>
        ThreadAppend(a[1..], b, x);
      case MapperOf(f) =>
        ThreadAppend(a[1..], b, f(x));
    }
  }

  /** A chain without filterers never interrupts, and a single mapper yields `fn(x)`. */
  lemma {:induction false} MappersOnlyNeverInterrupt<T>(chain: seq<Intermediary<T>>, x: T)
    requires forall k :: 0 <= k < |chain| ==> chain[k].MapperOf?
    ensures Thread(chain, x).Success?
    ensures |chain| == 1 ==> Thread(chain, x) == Success(chain[0].mapper(x))
  {
    if chain != [] {
      MappersOnlyNeverInterrupt(chain[1..], chain[0].mapper(x));
    }
  }

  /**
   * A chain of filterers only lets `x` through unchanged exactly when every
   * filterer accepts it.
   */
  lemma {:induction false} FilterersOnlyKeepValue<T>(chain: seq<Intermediary<T>>, x: T)
    requires forall k :: 0 <= k < |chain| ==> chain[k].FiltererOf?
    ensures Thread(chain, x).Success? <==> forall k :: 0 <= k < |chain| ==> chain[k].accept(x)
    ensures Thread(chain, x).Success? ==> Thread(chain, x).value == x
  {
    if chain != [] {
      FilterersOnlyKeepValue(chain[1..], x);
      assert forall k :: 1 <= k < |chain| ==> chain[1..][k - 1] == chain[k];
    }
  }

  /**
   * What `collect` yields: `apply(n)` for every source element that is not
   * interrupted, so never more elements than the source has.
   */
  function Collected<T>(chain: seq<Intermediary<T>>, xs: seq<T>): (r: seq<T>)
    ensures |r| <= |xs|
  {
    if xs == [] then []
    else
      (match Thread(chain, xs[0]) case Success(v) => [v] case Failure(_) => []) + Collected(chain, xs[1..])
  }

  /** The stage-at-a-time reading of a chain: each intermediary as a whole-sequence filter or map. */
  function Staged<T>(chain: seq<Intermediary<T>>, xs: seq<T>): seq<T>
  {
    if chain == [] then xs
    else
      match chain[0]
      case FiltererOf(p) => Staged(chain[1..], Stages.Filter(p, xs))
      case MapperOf(f) => Staged(chain[1..], Stages.Map(f, xs))
  }

  lemma {:induction false} CollectedNoIntermediaries<T>(xs: seq<T>)
    ensures Collected([], xs) == xs
  {
    if xs != [] {
      CollectedNoIntermediaries(xs[1..]);
    }
  }

  lemma {:induction false} CollectedFirstIntermediary<T>(c: Intermediary<T>, rest: seq<Intermediary<T>>, xs: seq<T>)
    ensures Collected([c] + rest, xs) == Collected(rest,
      match c case FiltererOf(p) => Stages.Filter(p, xs) case MapperOf(f) => Stages.Map(f, xs))
  {
    assert ([c] + rest)[0] == c && ([c] + rest)[1..] == rest;
    if xs != [] {
      CollectedFirstIntermediary(c, rest, xs[1..]);
      match c
      case FiltererOf(p) =>
        if p(xs[0]) {
          var f := Stages.Filter(p, xs[1..]);
          assert ([xs[0]] + f)[0] == xs[0] && ([xs[0]] + f)[1..] == f;
        }
      case MapperOf(m) =>
        var f := Stages.Map(m, xs[1..]);
        assert ([m(xs[0])] + f)[0] == m(xs[0]) && ([m(xs[0])] + f)[1..] == f;
    }
  }

  /**
   * `collect` threading each element through every intermediary yields the
   * same as running the intermediaries one after another as `core.py`'s
   * filter and map stages.
   */
  lemma {:induction false} CollectedIsStaged<T>(chain: seq<Intermediary<T>>, xs: seq<T>)
    ensures Collected(chain, xs) == Staged(chain, xs)
  {
    if chain == [] {
      CollectedNoIntermediaries(xs);
    } else {
      assert chain == [chain[0]] + chain[1..];
      CollectedFirstIntermediary(chain[0], chain[1..], xs);
      match chain[0]
      case FiltererOf(p) =>
        CollectedIsStaged(chain[1..], Stages.Filter(p, xs));
      case MapperOf(f) =>
        CollectedIsStaged(chain[1..], Stages.Map(f, xs));
    }
  }

  /**
   * What `reduce` does, line by line: an interrupted element leaves `value`
   * as it was (the bare `next` is a no-op), so the accumulator is called
   * again with the previous element's value; if no element has produced a
   * value yet, reading `value` raises `UnboundLocalError`.
   */
  function ReduceAsWritten<T, U>(chain: seq<Intermediary<T>>, xs: seq<T>, accumulator: (U, T) -> U, identity: U, value: Option<T>): (r: Result<U, ReduceError>)
    ensures value.Some? ==> r.Success?
    ensures r.Failure? ==> exists i :: 0 <= i < |xs| && Thread(chain, xs[i]).Failure?
  {
    if xs == [] then Success(identity)
    else
      var value' := match Thread(chain, xs[0]) case Success(v) => Some(v) case Failure(_) => value;
      match value'
      case None => Failure(UnboundLocalError)
      case Some(v) => ReduceAsWritten(chain, xs[1..], accumulator, accumulator(identity, v), value')
  }

  /**
   * When no element is interrupted, `reduce` is the left fold of the
   * accumulator over what `collect` yields.
   */
  lemma {:induction false} ReduceWithoutInterrupts<T, U>(chain: seq<Intermediary<T>>, xs: seq<T>, accumulator: (U, T) -> U, identity: U, value: Option<T>)
    requires forall i :: 0 <= i < |xs| ==> Thread(chain, xs[i]).Success?
    ensures ReduceAsWritten(chain, xs, accumulator, identity, value) == Success(Terminals.FoldLeft(accumulator, identity, Collected(chain, xs)))
  {
    if xs != [] {
      var v := Thread(chain, xs[0]).value;
      ReduceWithoutInterrupts(chain, xs[1..], accumulator, accumulator(identity, v), Some(v));
      var rest := Collected(chain, xs[1..]);
      assert Collected(chain, xs) == [v] + rest;
      assert ([v] + rest)[0] == v && ([v] + rest)[1..] == rest;
    }
  }

  /** The filter `lambda x: x > 1` of the two counterexamples below. */
  function Above1(x: int): bool
  {
    x > 1
  }

  function Plus(a: int, b: int): int
  {
    a + b
  }

  /**
   * `stream([2, 1]).filter(lambda x: x > 1).reduce(0, +)`: the interrupted
   * `1` re-accumulates the stale `2`, giving 4 where `collect` yields only [2].
   */
  lemma ReduceReaccumulatesStaleValue()
    ensures ReduceAsWritten([FiltererOf(Above1)], [2, 1], Plus, 0, None) == Success(4)
    ensures Terminals.FoldLeft(Plus, 0, Collected([FiltererOf(Above1)], [2, 1])) == 2
  {
    var chain := [FiltererOf(Above1)];
    assert chain[1..] == [];
    assert Thread(chain, 2) == Success(2);
    assert Thread(chain, 1) == Failure(StreamInterrupt);
    assert [2, 1][0] == 2 && [2, 1][1..] == [1] && [1][0] == 1 && [1][1..] == [];
    assert ReduceAsWritten(chain, [1], Plus, 2, Some(2)) == Success(4);
    assert Collected(chain, [1]) == [];
    assert Collected(chain, [2, 1]) == [2];
    assert Terminals.FoldLeft(Plus, 0, [2]) == Terminals.FoldLeft(Plus, 2, [2][1..]);
    assert [2][1..] == [];
  }

  /** `stream([1, 2]).filter(lambda x: x > 1).reduce(0, +)`: the first element is interrupted, so `value` is unbound. */
  lemma ReduceUnboundOnFirstInterrupt()
    ensures ReduceAsWritten([FiltererOf(Above1)], [1, 2], Plus, 0, None) == Failure(UnboundLocalError)
    ensures Terminals.FoldLeft(Plus, 0, Collected([FiltererOf(Above1)], [1, 2])) == 2
  {
    var chain := [FiltererOf(Above1)];
    assert chain[1..] == [];
    assert Thread(chain, 2) == Success(2);
    assert Thread(chain, 1) == Failure(StreamInterrupt);
    assert [1, 2][0] == 1 && [1, 2][1..] == [2] && [2][0] == 2 && [2][1..] == [];
    assert Collected(chain, [2]) == [2];
    assert Collected(chain, [1, 2]) == [2];
    assert Terminals.FoldLeft(Plus, 0, [2]) == Terminals.FoldLeft(Plus, 2, [2][1..]);
  }

  /** `main.Stream`: an iterable and the intermediaries appended to it. */
  class Stream<T> {
    /** `self._iterable` */
    var iterable: seq<T>
    /** `self._chain` */
    var chain: seq<Intermediary<T>>

    constructor (iterable: seq<T>)
      ensures this.iterable == iterable && chain == []
    {
      this.iterable := iterable;
      chain := [];
    }

    /** Appends one filterer; earlier intermediaries are unchanged. */
    method Filter(accept: T -> bool) returns (self: Stream<T>)
      modifies this
      ensures self == this && iterable == old(iterable)
      ensures chain == old(chain) + [FiltererOf(accept)]
      ensures chain[|chain| - 1].Type() == Filterer
    {
      chain := chain + [FiltererOf(accept)];
      return this;
    }

    /** Appends one mapper; earlier intermediaries are unchanged. */
    method Map(mapper: T -> T) returns (self: Stream<T>)
      modifies this
      ensures self == this && iterable == old(iterable)
      ensures chain == old(chain) + [MapperOf(mapper)]
      ensures chain[|chain| - 1].Type() == Mapper
    {
      chain := chain + [MapperOf(mapper)];
      return this;
    }

    /** `collect`: yields `apply(n)` for each source element, skipping interrupted ones. */
    method Collect() returns (out: seq<T>)
      ensures out == Collected(chain, iterable)
    {
      out := [];
      for i := 0 to |iterable|
        invariant out + Collected(chain, iterable[i..]) == Collected(chain, iterable)
      {
        assert iterable[i..][0] == iterable[i] && iterable[i..][1..] == iterable[i + 1..];
        var r := Apply(chain, iterable[i]);
        if r.Success? {
          out := out + [r.value];
        }
      }
      assert iterable[|iterable|..] == [];
    }

    /** `reduce` as written, stale `value` and all. */
    method Reduce<U>(identity: U, accumulator: (U, T) -> U) returns (r: Result<U, ReduceError>)
      ensures r == ReduceAsWritten(chain, iterable, accumulator, identity, None)
    {
      var acc := identity;
      var value: Option<T> := None;
      for i := 0 to |iterable|
        invariant ReduceAsWritten(chain, iterable[i..], accumulator, acc, value) == ReduceAsWritten(chain, iterable, accumulator, identity, None)
      {
        assert iterable[i..][0] == iterable[i] && iterable[i..][1..] == iterable[i + 1..];
        var res := Apply(chain, iterable[i]);
        if res.Success? {
          value := Some(res.value);
        }
        if value == None {
          return Failure(UnboundLocalError);
        }
        acc := accumulator(acc, value.value);
      }
      assert iterable[|iterable|..] == [];
      return Success(acc);
    }

    /**
     * `reduce` with the interrupted element skipped (`continue` where the
     * source has `next`): the fold of the accumulator over what `collect` yields.
     */
    method ReduceSkippingInterrupted<U>(identity: U, accumulator: (U, T) -> U) returns (r: U)
      ensures r == Terminals.FoldLeft(accumulator, identity, Collected(chain, iterable))
    {
      r := identity;
      for i := 0 to |iterable|
        invariant Terminals.FoldLeft(accumulator, r, Collected(chain, iterable[i..])) ==
          Terminals.FoldLeft(accumulator, identity, Collected(chain, iterable))
      {
        assert iterable[i..][0] == iterable[i] && iterable[i..][1..] == iterable[i + 1..];
        var res := Apply(chain, iterable[i]);
        if res.Failure? {
          assert Collected(chain, iterable[i..]) == [] + Collected(chain, iterable[i + 1..]);
          assert [] + Collected(chain, iterable[i + 1..]) == Collected(chain, iterable[i + 1..]);
          continue;
        }
        var rest := Collected(chain, iterable[i + 1..]);
        assert Collected(chain, iterable[i..]) == [res.value] + rest;
        assert ([res.value] + rest)[0] == res.value && ([res.value] + rest)[1..] == rest;
        r := accumulator(r, res.value);
      }
      assert iterable[|iterable|..] == [];
    }
  }
}
