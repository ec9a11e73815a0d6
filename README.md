# Async iterator helpers, modelled in Dafny

This project models the combinator engine of the async-iterator-helpers ponyfill
(`src/index.ts`). The ponyfill implements the TC39 "async iterator helpers" proposal
as a class `AsyncIterator` that wraps one pull-capable producer. On top of it sit:

- the source adapters `from` and `fromEvents`;
- the lazy operators `drop`, `filter`, `flatMap`, `map` and `take`;
- the eager operators `every`, `find`, `some`, `forEach`, `reduce` and `toArray`.

Asynchrony is removed. Every `next()` is one synchronous pull that returns
`Value(v)` or `Done`.

- `Results` (results.dfy) holds the iterator result `Step` and `Option` (for `find`'s
  `undefined`).
- `Streams` (streams.dfy) holds the specification functions. For each lazy operator,
  a function gives the values its generator still yields, from a given state of its
  loop (the counter `i`), when the parent has `s` left. For each eager operator, a
  function gives its answer: a left fold with indices, or the first matching position.
  The lemmas characterise these functions: suffix, prefix, sub-sequence,
  element-wise image, concatenation, and the index passed to the reducer.
- `Iteration` (iterator.dfy) holds the class `AsyncIterator`. Its producer is the
  finite sequence `items` it will produce. `cursor` counts the values pulled so far,
  and the short-circuit pull counts are stated with it. The eager operators are
  methods with loops, proved against the `Streams` functions; `toArray` is a
  `reduce` with a push, as in the library.
- `Lazy` (lazy.dfy) has one class per generator. Each class holds the parent, the
  loop's locals and a `finished` flag. Its ghost `Output()` is what it will still
  yield. Each `Next` removes exactly its result from the front of `Output()` and
  states how far the parent was advanced.
- `Events` (events.dfy) holds the `fromEvents` buffer state machine. It is given as
  functions on `EventState`, which the multi-step lemmas use (FIFO delivery, abort is
  final, a woken pull has an answer). It is also given as the class `EventIterator`,
  whose `Dispatch`, `SignalAbort` and `Pull` are proved against those functions.
  `Pull` returns `Wait` where the library awaits a promise.

One behaviour of the code is reproduced as written. `take(count)` tests `i++ >= count`
only after it has pulled a value. So once `count` values have been yielded, the next
pull still takes one more value from the parent, discards it and ends.
`TakeIterator.Next` states this pull count. One might expect `take` never to pull the
parent past the `count`-th value. The code does pull past it, and the model follows
the code.

## Model

| member | source | states |
|---|---|---|
| `Iteration.Selected` | src/index.ts:14-16 | the producer `from` wraps: the `Symbol.iterator` iterator when the source has one, else its `Symbol.asyncIterator` iterator, else the source itself |
| `Iteration.AsyncIterator.From` | src/index.ts:8-19 | the new iterator yields, from the first value on, the values of the producer `from` selects: the `Symbol.iterator` iterator when there is one, else the `Symbol.asyncIterator` iterator, else the object itself |
| `Iteration.Rewrapped.From` | src/index.ts:73-75 | `from(it)` on an AsyncIterator keeps `it` itself as its producer, without pulling it |
| `Iteration.Rewrapped.Next` | src/index.ts:77-79 | a pull of `from(it)` is a pull of `it`: it returns the next value of `it` and advances `it` by exactly that value, or returns done when `it` has nothing left |
| `Iteration.AsyncIterator.Next` | src/index.ts:77-79 | one pull returns the next value and advances by one, or returns done exactly when nothing is left, without advancing |
| `Iteration.AsyncIterator.Every` | src/index.ts:94-101 | false at the first value failing the predicate, after pulling exactly up to it; true after pulling everything when none fails |
| `Iteration.AsyncIterator.Some` | src/index.ts:160-167 | true at the first matching value, after pulling exactly up to it; false after pulling everything |
| `Iteration.AsyncIterator.Find` | src/index.ts:116-123 | the first matching value, after pulling exactly up to it; None (`undefined`) after pulling everything |
| `Iteration.AsyncIterator.ForEach` | src/index.ts:136-140 | drains everything and invokes the callback once per value, in order |
| `Iteration.AsyncIterator.Reduce` | src/index.ts:151-158 | drains everything; the result is the left fold of the reducer from the initial value, with zero-based indices |
| `Iteration.AsyncIterator.ToArray` | src/index.ts:182-187 | drains everything and returns the remaining values unchanged and in order |
| `Streams.FirstMatch` | src/index.ts:116-123 | the index of the first element satisfying the predicate, with no earlier match; None exactly when no element matches |
| `Streams.FirstMatchAt` | src/index.ts:117-121 | a matching position with no earlier match is the one the search stops at |
| `Streams.EveryIsNotSomeFailure` | src/index.ts:94-101 | `every(p)` answers true exactly when all elements satisfy p, that is, when searching for a failure finds none |
| `Streams.FoldIndexed` | src/index.ts:152-157 | the reducer applied to each value in turn, with the accumulator so far and a zero-based index counting from `index`; the accumulator itself when nothing is left |
| `Streams.FoldSplit` | src/index.ts:152-157 | reducing a concatenation reduces the first part, then the second part from the accumulated value, with indices continuing at the first part's length |
| `Streams.FoldLast` | src/index.ts:152-157 | the element at position k is passed to the reducer with index k; an empty source returns the initial value |
| `Streams.ReduceWithIndex` | src/index.ts:151-158 | `reduce((acc, v, i) => acc + v * i, 0)` over [10, 20, 30] is 80 |
| `Streams.Push` | src/index.ts:183-186 | the reducer `toArray` hands to `reduce`: the accumulator with the value appended at its end |
| `Streams.FoldPushAppends` | src/index.ts:182-187 | reducing with push onto an accumulator appends the source unchanged and in order |
| `Streams.DropFrom` | src/index.ts:84-90 | with counter `i`, each parent value is discarded while `i < limit` and yielded otherwise, the counter advancing on every value; never more values than the parent has left |
| `Streams.DropFromIsSuffix` | src/index.ts:84-90 | from any counter state, drop yields the parent's remaining values minus the ones still to skip |
| `Streams.DropYieldsSuffix` | src/index.ts:81-92 | drop(n) over S yields exactly S[n..], or nothing when n is at least the length of S |
| `Streams.DropZeroIsIdentity` | src/index.ts:86-89 | drop(0) yields S unchanged |
| `Lazy.DropIterator.constructor` | src/index.ts:81-84 | the new generator will yield exactly S[n..] of the parent's remaining S, or nothing |
| `Lazy.DropIterator.Next` | src/index.ts:85-91 | yields the next value of the suffix after pulling and discarding the values still to skip; done exactly when the suffix is exhausted, and done from then on |
| `Streams.Filtered` | src/index.ts:108-112 | filter yields no more values than its source, and every value it yields satisfies the predicate |
| `Streams.FilteredConcat` | src/index.ts:108-112 | filtering distributes over concatenation, so order is kept |
| `Streams.FilteredMembership` | src/index.ts:108-112 | a value is yielded exactly when it is in the source and satisfies the predicate |
| `Lazy.FilterIterator.constructor` | src/index.ts:105-107 | the new generator will yield exactly the parent's remaining values that satisfy the predicate |
| `Lazy.FilterIterator.Next` | src/index.ts:107-113 | yields the next accepted value after pulling exactly up to the first match, or done after draining the parent; rejected values are consumed and never surfaced |
| `Streams.Mapped` | src/index.ts:145-147 | the mapper applied to each parent value in order, one result per value |
| `Streams.MappedAt` | src/index.ts:145-147 | map keeps the length and yields f(S[k]) at position k |
| `Lazy.MapIterator.constructor` | src/index.ts:142-144 | the new generator will yield f(S[k]) for each k of the parent's remaining S, same length and order |
| `Lazy.MapIterator.Next` | src/index.ts:144-148 | one parent pull per pull; yields the mapped value or done |
| `Streams.Flattened` | src/index.ts:128-132 | for each parent value in order, all the values of its sub-sequence |
| `Streams.FlattenedConcat` | src/index.ts:128-132 | flatMap distributes over concatenation of its source |
| `Streams.FlattenedSingletons` | src/index.ts:128-132 | a flatMap whose sub-sequences are single values is a map |
| `Streams.FlattenedDuplicates` | src/index.ts:125-134 | `flatMap(v => [v, v])` over [1, 2] yields [1, 1, 2, 2] |
| `Lazy.FlatMapIterator.constructor` | src/index.ts:125-127 | the new generator will yield the concatenation g(S[0]) + g(S[1]) + ... |
| `Lazy.FlatMapIterator.Next` | src/index.ts:127-133 | yields the next value of the concatenation, done exactly when it is exhausted; the parent is not pulled while the current sub-sequence still has values, and otherwise is pulled exactly up to the first value whose sub-sequence is not empty |
| `Lazy.FlatMapIterator.Refill` | src/index.ts:128-129 | the outer loop pulls and skips parent values with an empty sub-sequence and stops at the first non-empty one, which becomes the current sub-sequence; it finishes only when nothing is left to yield |
| `Lazy.FlatMapIterator.Advance` | src/index.ts:129-131 | the inner loop yields the next value of the current sub-sequence and removes exactly that value from what the generator will still yield |
| `Streams.TakeFrom` | src/index.ts:173-178 | nothing once the counter reaches `count` or the parent is empty, else the parent's next value and the rest; never more than `count - i` values, nor more than the parent has left |
| `Streams.TakeFromIsPrefix` | src/index.ts:173-178 | from any counter state, take yields the prefix of the parent's remaining values that the count still allows |
| `Streams.TakeYieldsPrefix` | src/index.ts:169-180 | take(n) over S yields S[..min(n, len S)], never more than n values, and nothing when n = 0 |
| `Streams.DropThenTake` | src/index.ts:169-180 | drop(n) then take(k) yields S[n..n+k], cut short by the end of S |
| `Lazy.TakeIterator.constructor` | src/index.ts:169-172 | the new generator will yield at most n values: the first min(n, len S) values of the parent's remaining S |
| `Lazy.TakeIterator.Next` | src/index.ts:173-179 | a running generator pulls exactly one parent value per pull; after n values, the next pull still advances the parent by one and then reports done for good |
| `Events.Dispatched` | src/index.ts:42-48 | before abort, a dispatch of the collected event appends it to the buffer and wakes the waiter; the abort event aborts; after abort, nothing changes |
| `Events.Signalled` | src/index.ts:49-51 | the external signal aborts the adapter when it is the configured trigger, and leaves the buffer unchanged |
| `Events.Pulled` | src/index.ts:53-65 | a pull is done once aborted, even with events buffered; otherwise it returns the oldest buffered event, or waits on an empty buffer |
| `Events.AbortIsFinal` | src/index.ts:45-56 | once aborted, any sequence of dispatches, signals and pulls leaves the state unchanged, and every pull returns done |
| `Events.DispatchesAppend` | src/index.ts:42-45 | dispatches that do not abort append their events to the buffer, in order |
| `Events.PullsDrain` | src/index.ts:57-59 | while not aborted, as many pulls as buffered events return them oldest first |
| `Events.FifoDelivery` | src/index.ts:42-59 | unless the collected event is also the abort event, events dispatched before any pull are returned by the following pulls in dispatch order, after those already buffered |
| `Events.DoneOnlyAfterAbort` | src/index.ts:53-64 | a pull returns done only once the adapter is aborted: in any run that ends unaborted no pull returned done, and without an `abort` option the adapter never aborts |
| `Events.WokenPullAnswers` | src/index.ts:60-64 | once a waiting pull is woken by a buffered event or by the abort, the retried pull returns a value or done, never another wait |
| `Events.EventIterator.FromEvents` | src/index.ts:34-52 | the adapter starts with an empty buffer, not aborted, no waiter |
| `Events.EventIterator.Dispatch` | src/index.ts:42-48 | the fields change exactly as `Dispatched` says |
| `Events.EventIterator.SignalAbort` | src/index.ts:49-51 | the fields change exactly as `Signalled` says |
| `Events.EventIterator.Pull` | src/index.ts:53-65 | the result and the new fields are exactly those of `Pulled` |

## Left out

- `fromStream` (src/index.ts:21-32) and `toStream` (src/index.ts:189-200): thin wrappers over the host's `ReadableStream` reader and controller, a foreign API. Releasing the reader lock depends on the host.
- Promises, `await` and `for await` scheduling: pulls are synchronous. The awaited promise in `fromEvents` is the explicit `Wait` result; the retry `this.next()` is the consumer's next `Pull`.
- Chaining of stages: each lazy-operator class wraps an `AsyncIterator` whose producer is a finite sequence. A stage object is not itself an `AsyncIterator`, because this model has no dynamic dispatch over producer kinds. A pipeline of several stages is stated on the specification functions instead (`Streams.DropThenTake`).
- The inner iterator returned by `flatMap`'s mapper is modelled by its values, and the mapper returns a sequence. Pulls of inner iterators are not counted.
- Callbacks (predicates, mappers, reducer, `forEach` callback) are pure, total functions, and awaiting their results is not modelled. `forEach` returns the list of callback results as the record of its calls; the library returns nothing.
- Exceptions thrown by producers or callbacks: they propagate unchanged and have no logic to verify.
- Infinite producers, and negative or non-integer counts: producers are finite sequences and counts are `nat`. With a negative `limit`, `drop` would pass everything through. With a negative `count`, `take` would yield nothing after pulling one value.
- Closing the parent on early exit: the class defines no `return()`, so leaving a `for await` early does nothing to the parent.
- `cursor` counts pulls that returned a value. A pull of an exhausted producer returns done and is not counted.
- `EventTarget` and `AbortController` dispatch internals, the `capture` and `once` options, and concurrent pulls on the event adapter. The model keeps only their effect: append, abort, detach. An external signal that was already aborted before `fromEvents` never fires its `abort` event again. The model reproduces this by never calling `SignalAbort`. The `abort` listeners that each wait adds to the controller's signal (src/index.ts:62) are not modelled; they only cost memory.
- `from` copies the values the selected producer will produce. The model does not see code that keeps pulling the same producer elsewhere (a generator object, whose `Symbol.iterator` returns itself), or that mutates the underlying collection after `from` (a value pushed onto an array is still produced by its live iterator). The one case modelled as shared is an AsyncIterator handed to `from`, which `Rewrapped` wraps.
- A producer that returns further values after reporting done: `next()` passes on whatever the producer returns, but a finite-sequence producer stays done once it is done.
- `Option` distinguishes a matched value that is `undefined` from "not found"; `find` returns `undefined` for both.
- `from` on a primitive iterable (a string) throws a TypeError at the `Symbol.iterator in source` test (src/index.ts:14), before anything is wrapped. `Source` describes objects only, so this error path is not modelled.
