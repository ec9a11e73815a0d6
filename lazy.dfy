/**
 * The lazy operators drop, filter, flatMap, map and take (src/index.ts).
 *
 * Each operator wraps an async generator around its parent. A generator is
 * modelled by a class holding the parent, the loop's local state (the counter
 * `i`, the current inner sequence of flatMap) and a `finished` flag: once the
 * generator's loop has exited, every later pull reports done without touching
 * the parent. `Next` is one pull of the returned iterator; `Output()` is what
 * the generator will still yield, given its state and the parent's remaining
 * values, and each `Next` peels exactly its result off the front of it.
 */
module Lazy {
  import opened Results
  import opened Streams
  import opened Iteration

  /** `drop(limit)`: `i++ < limit` values are pulled and skipped, the rest passed on. */
  class DropIterator<T> {
    const parent: AsyncIterator<T>
    const limit: nat
    var i: nat
    var finished: bool

    ghost predicate Valid()
      reads this, parent
    {
      parent.Valid() && (finished ==> parent.cursor == |parent.items|)
    }

    ghost function Output(): seq<T>
      reads this, parent
      requires Valid()
    {
      if finished then [] else DropFrom(parent.Remaining(), limit, i)
    }

    constructor (parent: AsyncIterator<T>, limit: nat)
      requires parent.Valid()
      ensures Valid() && this.parent == parent && this.limit == limit
      ensures i == 0 && !finished
      ensures Output() == if limit >= |parent.Remaining()| then [] else parent.Remaining()[limit..]
    {
      this.parent := parent;
      this.limit := limit;
      i := 0;
      finished := false;
      new;
      DropYieldsSuffix(parent.Remaining(), limit);
    }

    method Next() returns (r: Step<T>)
      requires Valid()
      modifies this, parent
      ensures Valid()
      ensures old(Output()) == Yielded(r) + Output()
      ensures r.Done? <==> old(Output()) == []
      ensures r.Done? ==> finished
      // the values still to be skipped are pulled before the one yielded
      ensures r.Value? ==> parent.cursor == old(parent.cursor) + ToSkip(limit, old(i)) + 1
    {
      if finished {
        return Done;
      }
      while true
        invariant Valid() && !finished
        invariant old(parent.cursor) <= parent.cursor
        invariant i - old(i) == parent.cursor - old(parent.cursor)
        invariant old(i) < limit ==> i <= limit
        invariant old(i) >= limit ==> i == old(i)
        invariant DropFrom(parent.Remaining(), limit, i) == old(Output())
        decreases |parent.items| - parent.cursor
      {
        ghost var rest := parent.Remaining();
        var x := parent.Next();
        if x.Done? {
          finished := true;
          return Done;
        }
        assert rest[1..] == parent.Remaining();
        var counter := i;
        i := i + 1;
        if counter < limit {
          continue;
        }
        return x;
      }
    }
  }

  /** `filter(predicate)`: only values passing the predicate are yielded. */
  class FilterIterator<T> {
    const parent: AsyncIterator<T>
    const test: T -> bool
    var finished: bool

    ghost predicate Valid()
      reads this, parent
    {
      parent.Valid() && (finished ==> parent.cursor == |parent.items|)
    }

    ghost function Output(): seq<T>
      reads this, parent
      requires Valid()
    {
      if finished then [] else Filtered(parent.Remaining(), test)
    }

    constructor (parent: AsyncIterator<T>, test: T -> bool)
      requires parent.Valid()
      ensures Valid() && this.parent == parent && this.test == test && !finished
      ensures Output() == Filtered(parent.Remaining(), test)
    {
      this.parent := parent;
      this.test := test;
      finished := false;
    }

    method Next() returns (r: Step<T>)
      requires Valid()
      modifies this, parent
      ensures Valid()
      ensures old(Output()) == Yielded(r) + Output()
      ensures r.Done? <==> old(Output()) == []
      ensures r.Done? ==> finished
      // rejected values are pulled and dropped; the pull stops at the first match
      ensures r.Value? ==> var m := FirstMatch(old(parent.Remaining()), test);
        m.Some? && parent.cursor == old(parent.cursor) + m.value + 1
    {
      if finished {
        return Done;
      }
      ghost var start := parent.cursor;
      ghost var all := parent.Remaining();
      while true
        invariant Valid() && !finished
        invariant start <= parent.cursor && all == parent.items[start..]
        invariant forall k :: 0 <= k < parent.cursor - start ==> !test(all[k])
        invariant Filtered(parent.Remaining(), test) == old(Output())
        decreases |parent.items| - parent.cursor
      {
        ghost var rest := parent.Remaining();
        var x := parent.Next();
        if x.Done? {
          finished := true;
          return Done;
        }
        assert rest[1..] == parent.Remaining();
        if test(x.value) {
          FirstMatchAt(all, test, parent.cursor - 1 - start);
          return x;
        }
      }
    }
  }

  /** `map(mapper)`: every value is yielded transformed. */
  class MapIterator<T, U> {
    const parent: AsyncIterator<T>
    const mapper: T -> U
    var finished: bool

    ghost predicate Valid()
      reads this, parent
    {
      parent.Valid() && (finished ==> parent.cursor == |parent.items|)
    }

    ghost function Output(): seq<U>
      reads this, parent
      requires Valid()
    {
      if finished then [] else Mapped(parent.Remaining(), mapper)
    }

    constructor (parent: AsyncIterator<T>, mapper: T -> U)
      requires parent.Valid()
      ensures Valid() && this.parent == parent && this.mapper == mapper && !finished
      ensures |Output()| == |parent.Remaining()|
      ensures forall k :: 0 <= k < |parent.Remaining()| ==> Output()[k] == mapper(parent.Remaining()[k])
    {
      this.parent := parent;
      this.mapper := mapper;
      finished := false;
      new;
      MappedAt(parent.Remaining(), mapper);
    }

    method Next() returns (r: Step<U>)
      requires Valid()
      modifies this, parent
      ensures Valid()
      ensures old(Output()) == Yielded(r) + Output()
      ensures r.Done? <==> old(Output()) == []
      ensures r.Done? ==> finished
      // one parent value per yielded value
      ensures parent.cursor == old(parent.cursor) + |Yielded(r)|
    {
      if finished {
        return Done;
      }
      ghost var rest := parent.Remaining();
      var x := parent.Next();
      if x.Done? {
        finished := true;
        return Done;
      }
      assert rest[1..] == parent.Remaining();
      r := Value(mapper(x.value));
    }
  }

  /** The parent values whose sub-sequence under `mapper` is not empty. */
  function Produces<T, U>(mapper: T -> seq<U>): T -> bool
  {
    x => mapper(x) != []
  }

  /**
   * `flatMap(mapper)`: for each parent value, the values of `mapper(value)` in
   * order. The inner iterator is modelled by its values (`current`) and the
   * number of them already yielded (`pos`).
   */
  class FlatMapIterator<T, U> {
    const parent: AsyncIterator<T>
    const mapper: T -> seq<U>
    var current: seq<U>
    var pos: nat
    var finished: bool

    ghost predicate Valid()
      reads this, parent
    {
      && parent.Valid()
      && pos <= |current|
      && (finished ==> parent.cursor == |parent.items| && pos == |current|)
    }

    ghost function Output(): seq<U>
      reads this, parent
      requires Valid()
    {
      if finished then [] else current[pos..] + Flattened(parent.Remaining(), mapper)
    }

    constructor (parent: AsyncIterator<T>, mapper: T -> seq<U>)
      requires parent.Valid()
      ensures Valid() && this.parent == parent && this.mapper == mapper && !finished
      ensures Output() == Flattened(parent.Remaining(), mapper)
    {
      this.parent := parent;
      this.mapper := mapper;
      current := [];
      pos := 0;
      finished := false;
    }

    method Next() returns (r: Step<U>)
      requires Valid()
      modifies this, parent
      ensures Valid()
      ensures old(Output()) == Yielded(r) + Output()
      ensures r.Done? <==> old(Output()) == []
      ensures r.Done? ==> finished
      // the parent is not pulled while the inner sequence still has values
      ensures old(pos) < old(|current|) ==> parent.cursor == old(parent.cursor)
      // otherwise parent values with an empty sub-sequence are pulled and skipped,
      // up to and including the first one whose sub-sequence yields the value
      ensures r.Value? && old(pos) == old(|current|) ==>
                var m := FirstMatch(old(parent.Remaining()), Produces(mapper));
                m.Some? && parent.cursor == old(parent.cursor) + m.value + 1
    {
      if finished {
        return Done;
      }
      if pos == |current| {
        Refill();
        if finished {
          return Done;
        }
      }
      r := Advance();
    }

    /** The inner loop's step: yield the next value of the current sub-sequence. */
    method Advance() returns (r: Step<U>)
      requires Valid() && !finished && pos < |current|
      modifies this
      ensures Valid() && !finished
      ensures r == Value(old(current[pos]))
      ensures old(Output()) == Yielded(r) + Output()
    {
      ghost var rest := Flattened(parent.Remaining(), mapper);
      r := Value(current[pos]);
      assert current[pos..] == [current[pos]] + current[pos + 1..];
      pos := pos + 1;
      assert old(Output()) == [r.value] + (current[pos..] + rest);
    }

    /**
     * The outer loop of the generator: pull parent values until one has a
     * non-empty sub-sequence, which becomes `current`, or the parent is done.
     */
    method Refill()
      requires Valid() && !finished && pos == |current|
      modifies this, parent
      ensures Valid() && Output() == old(Output())
      ensures finished <==> old(Output()) == []
      ensures !finished ==> var m := FirstMatch(old(parent.Remaining()), Produces(mapper));
                && m.Some? && pos == 0 && current == mapper(old(parent.Remaining())[m.value])
                && parent.cursor == old(parent.cursor) + m.value + 1
    {
      ghost var start := parent.cursor;
      ghost var all := parent.Remaining();
      while true
        invariant Valid() && !finished && pos == |current|
        invariant start <= parent.cursor && all == parent.items[start..]
        invariant Flattened(parent.Remaining(), mapper) == old(Output())
        invariant forall k :: 0 <= k < parent.cursor - start ==> !Produces(mapper)(all[k])
        decreases |parent.items| - parent.cursor
      {
        ghost var rest := parent.Remaining();
        var x := parent.Next();
        if x.Done? {
          assert Flattened(rest, mapper) == [];
          finished := true;
          return;
        }
        assert rest[0] == x.value && rest[1..] == parent.Remaining();
        assert Flattened(rest, mapper) == mapper(x.value) + Flattened(parent.Remaining(), mapper);
        current := mapper(x.value);
        pos := 0;
        if current != [] {
          assert current[pos..] == current && all[parent.cursor - 1 - start] == x.value;
          FirstMatchAt(all, Produces(mapper), parent.cursor - 1 - start);
          return;
        }
      }
    }
  }

  /**
   * `take(count)`: `if (i++ >= count) break;` runs after a value has been
   * pulled, so once `count` values are out the next pull still takes one more
   * value from the parent, discards it and ends the generator.
   */
  class TakeIterator<T> {
    const parent: AsyncIterator<T>
    const count: nat
    var i: nat
    var finished: bool

    ghost predicate Valid()
      reads this, parent
    {
      parent.Valid()
    }

    ghost function Output(): seq<T>
      reads this, parent
      requires Valid()
    {
      if finished then [] else TakeFrom(parent.Remaining(), count, i)
    }

    constructor (parent: AsyncIterator<T>, count: nat)
      requires parent.Valid()
      ensures Valid() && this.parent == parent && this.count == count
      ensures i == 0 && !finished
      ensures Output() == parent.Remaining()[..Min(count, |parent.Remaining()|)]
      ensures |Output()| <= count
    {
      this.parent := parent;
      this.count := count;
      i := 0;
      finished := false;
      new;
      TakeYieldsPrefix(parent.Remaining(), count);
    }

    method Next() returns (r: Step<T>)
      requires Valid()
      modifies this, parent
      ensures Valid()
      ensures old(Output()) == Yielded(r) + Output()
      ensures r.Done? <==> old(Output()) == []
      ensures r.Done? ==> finished
      // a running generator pulls exactly one parent value per pull, even the
      // pull that finds the count exhausted
      ensures parent.cursor == if old(finished) || old(parent.cursor) == |parent.items|
                               then old(parent.cursor) else old(parent.cursor) + 1
      ensures !old(finished) && old(i) >= count && old(parent.cursor) < |parent.items| ==>
                r.Done? && parent.cursor == old(parent.cursor) + 1
      // a pull that yields leaves the generator running, with its counter advanced
      ensures r.Value? ==> !finished && i == old(i) + 1
    {
      if finished {
        return Done;
      }
      ghost var rest := parent.Remaining();
      var x := parent.Next();
      if x.Done? {
        finished := true;
        return Done;
      }
      assert rest[1..] == parent.Remaining();
      var counter := i;
      i := i + 1;
      if counter >= count {
        finished := true;
        return Done;
      }
      r := x;
    }
  }
}
