# snakestream, modelled in Dafny

snakestream is a Python library of Java-style streams over async
generators. This project models its sequential core over finite
sequences. Every async generator becomes the `seq` it would deliver. Every
user callback (predicate, mapper, flat-mapper, consumer, comparator,
accumulator) becomes a total function. The sync and `await` branches that
`iscoroutinefunction` selects compute the same value, so they are one
branch here.

- `stages.dfy` (module `Stages`): the intermediate stages of
  `snakestream.core.Stream`, namely `filter`, `map`, `peek`, `flat_map`,
  `distinct` and `sorted`. Each is a sequence function with lemmas about
  what it keeps and in which order. The `sorted` stage uses a reference
  insertion sort, and `SortedPermutationUnique` shows that any correct
  sort of integers, Python's included, gives the same list.
- `terminals.dfy` (module `Terminals`): the terminal loops `reduce`,
  `count`, `find_any`, `all_match`, `none_match`, `any_match` and
  `_min_max`. Each is a method proved against a reference function
  (`FoldLeft`, `Extremum`), with lemmas about what `max` and `min` return
  under a strict order.
- `core.dfy` (module `Core`): the `Stream` class.
  - Its fields are `source` (`self._stream`) and `chain` (`self._chain`).
    The builder methods append `Stage` values, one per closure the Python
    code appends.
  - `Sequential` pops the chain exactly as `_sequential` does, so the
    chain is empty afterwards and a second `_compose` sees no stages.
  - The source is a one-shot generator. A terminal that drives the
    composition to its end leaves `source == []`. A short-circuiting
    terminal drops exactly the prefix the lazy stages pulled to answer.
    `Demand` computes how many elements that is: `sorted` drains its
    upstream, and every other stage pulls only until it can yield.
  - `Pipeline` is the left-to-right reading of a chain, and the terminals
    are stated against it.
  - `distinct` and `sorted` have their own imperative runners: the `seen`
    set, and the `cache` that is drained, sorted and re-yielded.
  - `_concat` and `Stream.concat` are modelled, including the case where
    both arguments are the same stream: the second half is then empty.
  - Elements are integers, so `sorted()` uses the natural order and
    truthiness is `n != 0`.
- `per_element.dfy` (module `PerElement`): the older `snakestream.main`
  pipeline.
  - `Intermediary` is a two-constructor datatype that carries its
    `IntermediaryType` tag.
  - `Apply` is the `apply` loop, and `Collect` and `Reduce` drive it.
  - `CollectedIsStaged` shows that running each element through the whole
    chain gives the same result as running the stages one after another.
  - `reduce` is modelled as written, stale value included. A corrected
    version stands beside it (see Findings).
- `collectors.dfy` (module `Collectors`): the `to_generator` and
  `to_list` sinks.
- `scenarios.dfy` (module `Scenarios`): concrete pipelines from the
  repository's tests, stated over the model.
- `wrappers.dfy` (module `Wrappers`): `Option` (Python `None`) and
  `Result` (a raised exception).

## Model

| member | source | states |
|---|---|---|
| Stages.Filter | src/snakestream/core.py:93-104 | the filter stage never yields more elements than it pulls |
| Stages.FilterKeepsExactlyAccepted | src/snakestream/core.py:94-101 | every occurrence of a value the predicate accepts is yielded, and no occurrence of a rejected value is |
| Stages.FilterIsSubsequence | src/snakestream/core.py:94-101 | the yielded elements keep their source order |
| Stages.FilterAppend | src/snakestream/core.py:94-101 | filtering is element-wise: filtering `a + b` is filtering `a`, then filtering `b` |
| Stages.FilterRejectsAll | src/snakestream/core.py:94-101 | when the predicate rejects every element, the filter stage yields nothing |
| Stages.FilterFilter | src/snakestream/core.py:93-104 | two chained filters yield exactly what one filter on the conjunction of their predicates yields |
| Stages.Map | src/snakestream/core.py:106-115 | map yields one element per input, and element `i` is the mapper's image of input `i` |
| Stages.MapAppend | src/snakestream/core.py:107-112 | mapping is element-wise over a concatenation |
| Stages.Peek | src/snakestream/core.py:169-179 | peek re-yields every element unchanged and in order, and calls the consumer exactly once per element, in element order |
| Stages.FlatMap | src/snakestream/core.py:117-127 | a value is yielded iff it belongs to the inner stream of some outer element |
| Stages.FlatMapAppend | src/snakestream/core.py:121-124 | inner streams are concatenated in outer order |
| Stages.FlatMapSingleton | src/snakestream/core.py:122-124 | one outer element yields exactly its inner stream's elements, in their order; with `FlatMapAppend` this fixes the whole output |
| Stages.DistinctFrom | src/snakestream/core.py:158-164 | the distinct closure, with `seen` as its starting set, never yields more elements than it pulls |
| Stages.DistinctFromProperties | src/snakestream/core.py:155-167 | distinct yields no duplicates; it yields exactly the input values not already in `seen`; the values keep input order and are ordered by their first occurrence |
| Stages.DistinctFromPrefixShorter | src/snakestream/core.py:158-164 | distinct yields no more for a prefix of its input than for the whole input |
| Stages.DistinctStep | src/snakestream/core.py:159-164 | one step of distinct: a seen value is skipped; an unseen value is yielded and added to `seen` |
| Stages.InsertKeepsSorted | src/snakestream/core.py:143 | inserting into a nondecreasing list keeps it nondecreasing, adds one element, and the new head is `x` or the old head |
| Stages.Sort | src/snakestream/core.py:143 | `cache.sort()` leaves a nondecreasing permutation of the drained elements |
| Stages.SortedPermutationUnique | src/snakestream/core.py:143 | two nondecreasing permutations of the same multiset are equal, so any correct sort gives `Sort`'s list |
| Stages.Reverse | src/snakestream/core.py:145-147 | `reversed(cache)` has the same length and element `i` is element `len - 1 - i` of the input |
| Stages.ReversePermutes | src/snakestream/core.py:145-147 | reversing keeps every element with its multiplicity |
| Stages.ReverseOfSortedIsDescending | src/snakestream/core.py:145-147 | the reverse of a nondecreasing list is nonincreasing |
| Terminals.FoldLeftAppend | src/snakestream/core.py:185-191 | folding `a + b` folds `b` starting from where folding `a` ended |
| Terminals.Reduce | src/snakestream/core.py:185-191 | reduce is the left fold of the accumulator from `identity`, in delivery order |
| Terminals.Count | src/snakestream/core.py:282-286 | count equals the number of delivered elements |
| Terminals.FindAny | src/snakestream/core.py:208-210 | find_any is None iff nothing is delivered, and otherwise the first element |
| Terminals.FirstWhere | src/snakestream/core.py:240-280 | where a short-circuiting match stops: never past the end of the stream |
| Terminals.FirstWhereStops | src/snakestream/core.py:240-280 | the test comes out as wanted at `FirstWhere` (when it is inside the stream) and at no earlier element |
| Terminals.AllMatch | src/snakestream/core.py:240-252 | all_match is true iff every element satisfies the predicate (true on empty input); it asks the stream once per element up to and including the first failing one, or once more than its length when none fails |
| Terminals.NoneMatch | src/snakestream/core.py:254-266 | none_match is true iff no element satisfies the predicate (true on empty input); it asks up to and including the first satisfying element, or once past the end |
| Terminals.AnyMatch | src/snakestream/core.py:268-280 | any_match is true iff some element satisfies the predicate (false on empty input); it asks up to and including the first satisfying element, or once past the end |
| Terminals.Scan | src/snakestream/core.py:227-237 | the `_min_max` scan answers either its provisional element or one of the later elements |
| Terminals.Extremum | src/snakestream/core.py:225-238 | `_min_max` is None iff the stream is empty, and otherwise returns one of its elements |
| Terminals.MinMax | src/snakestream/core.py:225-238 | the `_min_max` loop, with `found` starting as None and replaced only by a truthy `n` with `comparator(n, found)`, returns `Extremum` |
| Terminals.Negate | src/snakestream/core.py:221-222 | `negative_comparator(x, y)` holds exactly when `comparator(x, y)` does not |
| Terminals.ScanImproves | src/snakestream/core.py:233-237 | under a transitive comparator, the scan ends at its start element or at one the comparator puts before it |
| Terminals.ScanNotBeaten | src/snakestream/core.py:233-237 | under a strict order, neither the start element nor any truthy element scanned beats the answer |
| Terminals.ScanBelowAll | src/snakestream/core.py:233-237 | under a total preorder, the answer is related to the start element and to every truthy element scanned |
| Terminals.MaxIsNotBeaten | src/snakestream/core.py:212-238 | under a strict order, no element `max` considers beats its answer; the first element is always considered, later ones only when truthy |
| Terminals.MinBeatsNothing | src/snakestream/core.py:215-238 | `min` runs `_min_max` on `not comparator`; under a strict weak order its answer beats no element it considers |
| Collectors.ToGenerator | src/snakestream/collectors.py:4-6 | to_generator re-yields each element exactly once, in order, and then ends |
| Collectors.ToList | src/snakestream/collectors.py:8-12 | to_list returns exactly the drained elements in delivery order, `None` and the empty stream included |
| Core.ApplyStage | src/snakestream/core.py:93-179 | what each closure appended by a builder method yields: map, peek and sorted yield one element per input; filter and distinct never yield more |
| Core.Pipeline | src/snakestream/core.py:46-53 | the chain applied left to right to the source; a chain of one-for-one stages delivers as many elements as the source |
| Core.PipelineAppend | src/snakestream/core.py:46-53 | running a chain `a + b` runs `a` and then runs `b` on what `a` yields |
| Core.PipelineOfFiltersAndMapsIsElementwise | src/snakestream/core.py:93-115 | a chain of filters and maps distributes over concatenation of its source |
| Core.StageDemand | src/snakestream/core.py:93-179 | how often a stage asks its upstream while its consumer asks it `m` times: `sorted` drains on the first request, the others pull until they can yield; at most one request past the end |
| Core.Demand | src/snakestream/core.py:46-53 | how often the composed chain asks the source, threading each stage's demand back to the source; at most one request past the end |
| Core.StagePrefixShorter | src/snakestream/core.py:93-179 | every stage but sorted yields no more for a prefix of its input than for the whole input |
| Core.DemandExhausts | src/snakestream/core.py:46-53 | a consumer asking for more than the composition delivers drains the whole source through every stage |
| Core.FindAnyBehindFilterDemand | src/snakestream/core.py:94-101 | `find_any` behind one filter pulls the source up to and including the first accepted element, and no further |
| Core.SortedStageOrdersAndPermutes | src/snakestream/core.py:129-153 | sorted yields a permutation of what it drained: nondecreasing, or nonincreasing with `reverse=True` |
| Core.RunDistinct | src/snakestream/core.py:155-167 | the `seen`-set loop yields `DistinctFrom({}, input)`, and `seen` always holds exactly the values yielded so far |
| Core.RunSorted | src/snakestream/core.py:130-150 | draining into `cache`, sorting and re-yielding forwards or backwards yields the sorted stage's output |
| Core.RunStage | src/snakestream/core.py:50-53 | calling one closure of the chain yields that stage's output |
| Core.Stream.constructor | src/snakestream/core.py:41-43 | a new stream has its source and an empty chain |
| Core.Stream.Filter | src/snakestream/core.py:93-104 | appends exactly one filter stage, leaves the earlier ones and the source unchanged, and returns the same stream |
| Core.Stream.Map | src/snakestream/core.py:106-115 | appends exactly one map stage and returns the same stream |
| Core.Stream.FlatMap | src/snakestream/core.py:117-127 | a coroutine flat-mapper raises `StreamBuildException` and nothing is appended; otherwise one flat-map stage is appended |
| Core.Stream.Sorted | src/snakestream/core.py:129-153 | appends exactly one sorted stage with its `reverse` flag |
| Core.Stream.Distinct | src/snakestream/core.py:155-167 | appends exactly one distinct stage |
| Core.Stream.Peek | src/snakestream/core.py:169-179 | appends exactly one peek stage |
| Core.Stream.Sequential | src/snakestream/core.py:46-53 | `_sequential` yields the chain applied left to right to the iterable (the iterable itself for an empty chain), and leaves the chain list empty |
| Core.Stream.Compose | src/snakestream/core.py:55-56 | `_compose` is the chain over the source; it consumes the chain and pulls nothing yet |
| Core.Stream.CollectToList | src/snakestream/core.py:182-183 | `collect(to_list)` returns the whole composition; the chain is consumed and the source exhausted |
| Core.Stream.Reduce | src/snakestream/core.py:185-191 | reduce is the left fold over the composed stream, which it drains |
| Core.Stream.Count | src/snakestream/core.py:282-286 | count is the length of the composed stream, which it drains |
| Core.Stream.FindAny | src/snakestream/core.py:208-210 | find_any is the first composed element, or None; the source loses exactly what one request pulled through the chain |
| Core.Stream.AllMatch | src/snakestream/core.py:240-252 | all_match quantifies universally over the composed stream; the source loses what the requests up to the first failure pulled |
| Core.Stream.NoneMatch | src/snakestream/core.py:254-266 | none_match: no composed element satisfies the predicate; the source loses what the requests up to the first satisfying element pulled |
| Core.Stream.AnyMatch | src/snakestream/core.py:268-280 | any_match quantifies existentially over the composed stream; the source loses what the requests up to the first satisfying element pulled |
| Core.Stream.Max | src/snakestream/core.py:212-213 | max is `_min_max` with the comparator over the composed stream, which it drains |
| Core.Stream.Min | src/snakestream/core.py:215-223 | min is `_min_max` with the negated comparator, and drains the stream |
| Core.ConcatComposed | src/snakestream/core.py:33-37 | driving `_concat(a, b)` yields all of `a`'s composition, then all of `b`'s, and exhausts both; when `a` and `b` are the same stream the second half is empty |
| Core.Concat | src/snakestream/core.py:82-85 | `Stream.concat` is a fresh stream with an empty chain whose source is what `_concat(a, b)` delivers |
| Core.CollectTwice | src/snakestream/core.py:46-56 | driving a stream a second time yields nothing: `pop(0)` emptied the chain and the first drive exhausted the source |
| PerElement.Thread | src/snakestream/main.py:43-59 | what `apply(x)` returns or raises; it is interrupted only when the chain holds a filterer |
| PerElement.Apply | src/snakestream/main.py:42-60 | the `apply` loop threads `x` through the intermediaries in order (a mapper replaces it, an accepting filterer keeps it) and stops with `StreamInterrupt` at the first rejecting filterer |
| PerElement.ApplyNeverMeetsUnknownType | src/snakestream/main.py:52-58 | the `RuntimeError('Unknown intermediary type')` branch is unreachable |
| PerElement.ThreadAppend | src/snakestream/main.py:44-51 | after an interrupt no later intermediary runs; otherwise the later ones see the earlier result |
| PerElement.MappersOnlyNeverInterrupt | src/snakestream/main.py:52-56 | a chain of mappers never interrupts, and a single mapper yields `fn(x)` |
| PerElement.FilterersOnlyKeepValue | src/snakestream/main.py:45-51 | a chain of filterers lets `x` through iff every filterer accepts it, and then unchanged |
| PerElement.Collected | src/snakestream/main.py:73-79 | what collect yields, `apply(n)` per element that is not interrupted, is never longer than the source |
| PerElement.CollectedIsStaged | src/snakestream/main.py:73-79 | collect yields what running each intermediary as a whole-sequence filter or map yields, in source order |
| PerElement.ReduceAsWritten | src/snakestream/main.py:63-71 | reduce line by line: once some element has produced a value it cannot fail, and it raises `UnboundLocalError` only if some element was interrupted |
| PerElement.ReduceWithoutInterrupts | src/snakestream/main.py:63-71 | when no element is interrupted, reduce is the left fold over what collect yields |
| PerElement.ReduceReaccumulatesStaleValue | src/snakestream/main.py:65-70 | over [2, 1] with `x > 1` and `+`, reduce returns 4 although collect yields only [2] |
| PerElement.ReduceUnboundOnFirstInterrupt | src/snakestream/main.py:65-70 | over [1, 2] with `x > 1`, reduce raises `UnboundLocalError` where the fold over collect is 2 |
| PerElement.Stream.constructor | src/snakestream/main.py:29-31 | a new stream has its iterable and no intermediaries |
| PerElement.Stream.Filter | src/snakestream/main.py:34-36 | appends exactly one intermediary tagged FILTERER; earlier ones are unchanged |
| PerElement.Stream.Map | src/snakestream/main.py:38-40 | appends exactly one intermediary tagged MAPPER; earlier ones are unchanged |
| PerElement.Stream.Collect | src/snakestream/main.py:73-79 | collect yields `apply(n)` for exactly the source elements not interrupted, in source order |
| PerElement.Stream.Reduce | src/snakestream/main.py:63-71 | the reduce loop as written equals `ReduceAsWritten` |
| PerElement.Stream.ReduceSkippingInterrupted | src/snakestream/main.py:63-71 | reduce with interrupted elements skipped is the left fold over what collect yields |
| Scenarios.TwoFiltersKeepFourAndFive | tests/test_filter.py:9-18 | `filter(x > 3).filter(x < 6)` over [1..6] yields [4, 5] |
| Scenarios.BuildAndComposeTwoFilters | tests/test_filter.py:9-18 | the same pipeline built with the builder and driven by `_compose` yields [4, 5] |
| Scenarios.ReduceSumsToTwentyOne | tests/test_main.py:260-265 | the left fold of `+` from 0 over [1..6] is 21 |
| Scenarios.FlatMapFlattensInOuterOrder | tests/test_flat_map.py:15-25 | flat_map over [[1, 2], [3, 4]] yields [1, 2, 3, 4] |
| Scenarios.DistinctKeepsFirstOccurrences | src/snakestream/core.py:155-167 | distinct over [1, 2, 2, 3, 1] yields [1, 2, 3] |
| Scenarios.SortedThreeOneTwo | src/snakestream/core.py:129-153 | sorted over [3, 1, 2] yields [1, 2, 3], and [3, 2, 1] with `reverse=True` |
| Scenarios.MaxSkipsFalsyZero | src/snakestream/core.py:225-238 | `max` with `>` over [-3, 0, -5] is -3: the falsy 0 is never taken |
| Scenarios.MatchOnEmpty | tests/test_all_match.py:9-12 | on an empty stream all_match and none_match are true and any_match is false |
| Scenarios.ToListKeepsNone | tests/test_collect.py:57-71 | to_list keeps `None`: [1, None, 3, 4] stays as it is, and [] gives [] |
| Scenarios.ConcatTwoStreams | tests/test_concat.py:10-25 | the awaited concat of [1, 2, 3, 4] and [5, 6, 7] yields 1 through 7 |
| Scenarios.ConcatStreamWithItself | src/snakestream/core.py:33-37 | the awaited concat of a stream over [1, 2, 3] with itself yields [1, 2, 3] once |
| Scenarios.FindAnyBehindFilterLeavesRest | src/snakestream/core.py:208-210 | `filter(x > 3).find_any()` over [1..6] answers 4 and leaves [5, 6] in the source |
| Scenarios.AboveThreeFromOneToSix | src/snakestream/core.py:94-101 | filtering [1..6] by `x > 3` yields [4, 5, 6], and the first accepted element is at position 3 |

## Left out

- `ParallelStream` and `_parallel` (core.py:289-318): the order of elements across the asyncio lanes depends on task timing, so there is no sequential contract to state.
- async/await and `iscoroutinefunction`: callbacks are total functions. The scheduler and suspension points are not modelled.
- `_normalize` and `_accept` (core.py:19-30): duck-typing on the source object. The source is already a finite sequence.
- `sorted(comparator=...)` (core.py:137-141): `merge_sort` lives in `snakestream.sort`, which is not part of this model, and `cmp_to_key` over a bool-valued comparator is Python-specific. Only `sorted()` in natural order is modelled.
- `src/snakestream/type.py`: type aliases and abstract base classes, with no behaviour.
- `of`, `empty`, `builder`, `sequential()`, `parallel()`, `for_each`, and `collect` with `to_generator`, in core.py: these are thin adapters. Only `collect(to_list)` is modelled on the class.
- Laziness and pull timing: each stage works on the finished sequence its upstream would deliver. How far a terminal drains the source is modelled, through `Demand`. The interleaving of pulls and effects between stages is not: for example, when a peek consumer runs relative to a downstream filter.
- Core.Concat: it drives `_concat(a, b)` when the new stream is built. Python builds only the generator, and pops `a`'s and `b`'s chains when the new stream is first driven. A stage added to `a` or `b` between `concat` and that first drive is therefore not seen by the model.
- Core.Stream.Map: the mapper is `int -> int`, because `Core` elements are integers. Mappers that change the element type (`map` to letters in the tests) are covered only by the generic `Stages.Map`.
- Core.Stream.Peek: inside a composed chain only what peek yields is tracked. The consumer's effects in call order are stated by `Stages.Peek` alone.
- Core.Stream.FlatMap: whether the flat-mapper is a coroutine is passed in as a flag. The flat-mapper returns the sequence its inner stream delivers, so the `TypeError` for an element that cannot form a stream is not modelled.
- Core.Stream.Distinct: each distinct stage gets its own fresh `seen` set. Sharing that set across parallel lanes only matters for `ParallelStream`.
- Terminals.MinMax: `found is None` is the provisional-answer test. A Python `None` element inside the stream is not modelled, since `Core` elements are integers.
- PerElement.Stream.Map: mappers are `T -> T`. The source's `Mapper` may return another type, and that is not modelled.

## Findings

| source | as written | input that shows it | evidently intended | confidence | as-written member | corrected member |
|---|---|---|---|---|---|---|
| src/snakestream/main.py:66-70 | the `except StreamInterrupt` branch evaluates the bare name `next`, which does nothing, so the accumulator still runs with the previous element's `value` | `stream([2, 1]).filter(lambda x: x > 1).reduce(0, +)` returns 4 | skip the interrupted element, so the result is 2 (the fold over what `collect` yields) | not executed | PerElement.ReduceReaccumulatesStaleValue | PerElement.Stream.ReduceSkippingInterrupted |
| src/snakestream/main.py:66-70 | when the first element is interrupted, `value` has never been assigned, and reading it raises `UnboundLocalError` | `stream([1, 2]).filter(lambda x: x > 1).reduce(0, +)` raises `UnboundLocalError` | skip the interrupted element, so the result is 2 | not executed | PerElement.ReduceUnboundOnFirstInterrupt | PerElement.Stream.ReduceSkippingInterrupted |
