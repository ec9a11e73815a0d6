/**
 * The AsyncIterator wrapper (src/index.ts): `from`, `next` and the eager
 * operators every, find, forEach, reduce, some and toArray.
 *
 * The wrapped producer is modelled by the finite sequence of values it will
 * produce (`items`) and the number of values already pulled (`cursor`); a pull
 * is synchronous and returns a Step. `cursor` is the pull count that the
 * short-circuit properties of the search operators are stated with.
 */
module Iteration {
  import opened Results
  import opened Streams

  /**
   * A value handed to `from`, described by its capabilities: the values its
   * `Symbol.iterator` iterator yields (if it has that method), the values its
   * `Symbol.asyncIterator` iterator yields (if it has that method), and the
   * values its own `next` produces when it is used as the iterator itself.
   */
  datatype Source<T> = Source(syncIterator: Option<seq<T>>, asyncIterator: Option<seq<T>>, own: seq<T>)

  /** The producer `from` wraps: sync iterator first, then async iterator, then the object. */
  function Selected<T>(src: Source<T>): seq<T>
  {
    if src.syncIterator.Some? then src.syncIterator.value
    else if src.asyncIterator.Some? then src.asyncIterator.value
    else src.own
  }

  class AsyncIterator<T> {
    /** Everything the wrapped producer produces, from its first value on. */
    const items: seq<T>
    /** Number of values pulled so far. */
    var cursor: nat

    ghost predicate Valid()
      reads this
    {
      cursor <= |items|
    }

    /** The values later pulls will return, in order. */
    ghost function Remaining(): seq<T>
      reads this
      requires Valid()
    {
      items[cursor..]
    }

    /** `AsyncIterator.from(source)`. */
    constructor From(src: Source<T>)
      ensures Valid() && items == Selected(src) && cursor == 0
      ensures Remaining() == Selected(src)
    {
      items := Selected(src);
      cursor := 0;
    }

    /** `next()`: one pull, delegated to the wrapped producer. */
    method Next() returns (r: Step<T>)
      requires Valid()
      modifies this
      ensures Valid()
      ensures old(Remaining()) == Yielded(r) + Remaining()
      ensures r.Done? <==> old(Remaining()) == []
      ensures r == if old(cursor) < |items| then Value(items[old(cursor)]) else Done
      ensures cursor == old(cursor) + |Yielded(r)|
    {
      if cursor < |items| {
        r := Value(items[cursor]);
        assert items[cursor..] == [items[cursor]] + items[cursor + 1..];
        cursor := cursor + 1;
      } else {
        r := Done;
      }
    }

    /** `every(predicate)`: false at the first failing value, true on exhaustion. */
    method Every(p: T -> bool) returns (b: bool)
      requires Valid()
      modifies this
      ensures Valid()
      ensures var m := FirstMatch(old(Remaining()), Negate(p));
        b == m.None? && cursor == if m.None? then |items| else old(cursor) + m.value + 1
    {
      ghost var start := cursor;
      ghost var rest := old(Remaining());
      while true
        invariant Valid() && start <= cursor
        invariant rest == items[start..]
        invariant forall k :: 0 <= k < cursor - start ==> !Negate(p)(rest[k])
        decreases |items| - cursor
      {
        var r := Next();
        if r.Done? {
          return true;
        }
        if !p(r.value) {
          FirstMatchAt(rest, Negate(p), cursor - 1 - start);
          return false;
        }
      }
    }

    /** `some(predicate)`: true at the first matching value, false on exhaustion. */
    method Some(p: T -> bool) returns (b: bool)
      requires Valid()
      modifies this
      ensures Valid()
      ensures var m := FirstMatch(old(Remaining()), p);
        b == m.Some? && cursor == if m.None? then |items| else old(cursor) + m.value + 1
    {
      ghost var start := cursor;
      ghost var rest := old(Remaining());
      while true
        invariant Valid() && start <= cursor
        invariant rest == items[start..]
        invariant forall k :: 0 <= k < cursor - start ==> !p(rest[k])
        decreases |items| - cursor
      {
        var r := Next();
        if r.Done? {
          return false;
        }
        if p(r.value) {
          FirstMatchAt(rest, p, cursor - 1 - start);
          return true;
        }
      }
    }

    /** `find(predicate)`: the first matching value, or None (`undefined`) on exhaustion. */
    method Find(p: T -> bool) returns (found: Option<T>)
      requires Valid()
      modifies this
      ensures Valid()
      ensures var m := FirstMatch(old(Remaining()), p);
        && found == (if m.None? then None else Option.Some(old(Remaining())[m.value]))
        && cursor == if m.None? then |items| else old(cursor) + m.value + 1
    {
      ghost var start := cursor;
      ghost var rest := old(Remaining());
      while true
        invariant Valid() && start <= cursor
        invariant rest == items[start..]
        invariant forall k :: 0 <= k < cursor - start ==> !p(rest[k])
        decreases |items| - cursor
      {
        var r := Next();
        if r.Done? {
          return None;
        }
        if p(r.value) {
          FirstMatchAt(rest, p, cursor - 1 - start);
          return Option.Some(r.value);
        }
      }
    }

    /**
     * `forEach(callback)`: drains the iterator, invoking the callback once per
     * value, in order. The callback is pure here; what it returns for each
     * call is collected in `log`, which stands for its effects.
     */
    method ForEach<R>(callback: T -> R) returns (log: seq<R>)
      requires Valid()
      modifies this
      ensures Valid() && cursor == |items|
      ensures log == Mapped(old(Remaining()), callback)
    {
      ghost var start := cursor;
      log := [];
      assert log + Mapped(items[cursor..], callback) == Mapped(items[start..], callback);
      while true
        invariant Valid() && start <= cursor
        invariant log + Mapped(items[cursor..], callback) == Mapped(items[start..], callback)
        decreases |items| - cursor
      {
        ghost var rest := items[cursor..];
        var r := Next();
        if r.Done? {
          assert Mapped(items[cursor..], callback) == [];
          return;
        }
        assert rest[0] == r.value && rest[1..] == items[cursor..];
        assert Mapped(rest, callback) == [callback(r.value)] + Mapped(items[cursor..], callback);
        log := log + [callback(r.value)];
      }
    }

    /**
     * `reduce(reducer, initialValue)`: drains the iterator, folding every value
     * into the accumulator together with its zero-based index.
     */
    method Reduce<A>(reducer: (A, T, nat) -> A, initialValue: A) returns (accumulator: A)
      requires Valid()
      modifies this
      ensures Valid() && cursor == |items|
      ensures accumulator == FoldIndexed(reducer, initialValue, old(Remaining()), 0)
    {
      ghost var start := cursor;
      accumulator := initialValue;
      var index: nat := 0;
      while true
        invariant Valid() && start <= cursor
        invariant index == cursor - start
        invariant FoldIndexed(reducer, accumulator, items[cursor..], index)
               == FoldIndexed(reducer, initialValue, items[start..], 0)
        decreases |items| - cursor
      {
        ghost var rest := items[cursor..];
        var r := Next();
        if r.Done? {
          return;
        }
        assert rest[1..] == items[cursor..];
        accumulator := reducer(accumulator, r.value, index);
        index := index + 1;
      }
    }

    /** `toArray()`: reduce with a push onto an empty array. */
    method ToArray() returns (values: seq<T>)
      requires Valid()
      modifies this
      ensures Valid() && cursor == |items|
      ensures values == old(Remaining())
    {
      values := Reduce(Push, []);
      FoldPushAppends([], old(Remaining()), 0);
    }
  }

  /**
   * `AsyncIterator.from(it)` applied to an AsyncIterator: `it[Symbol.asyncIterator]()`
   * returns `it` itself, so the new iterator's producer is `it`, and pulling the
   * new iterator pulls `it`. The two share one stream of values.
   */
  class Rewrapped<T> {
    const source: AsyncIterator<T>

    ghost predicate Valid()
      reads this, source
    {
      source.Valid()
    }

    /** `AsyncIterator.from(it)`: nothing is pulled yet, and `it` is kept, not copied. */
    constructor From(it: AsyncIterator<T>)
      requires it.Valid()
      ensures Valid() && source == it
      ensures unchanged(it)
    {
      source := it;
    }

    /** `next()`: delegated to `it`, which advances by exactly the value returned. */
    method Next() returns (r: Step<T>)
      requires Valid()
      modifies source
      ensures Valid()
      ensures r == if old(source.cursor) < |source.items| then Value(source.items[old(source.cursor)]) else Done
      ensures old(source.Remaining()) == Yielded(r) + source.Remaining()
      ensures source.cursor == old(source.cursor) + |Yielded(r)|
    {
      r := source.Next();
    }
  }
}
