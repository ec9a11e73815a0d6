/**
 * The event adapter `fromEvents(target, eventName, { abort })` (src/index.ts).
 *
 * The adapter keeps a FIFO buffer of delivered events and an abort flag (the
 * internal controller's signal). Its listeners are registered with that
 * signal, so once it is aborted they are detached and nothing more is
 * buffered. A pull returns done once aborted, else the oldest buffered event,
 * else it waits: `Wait` stands for the awaited promise, which a buffered
 * event or the abort resolves, after which the consumer's pull is retried.
 *
 * The state machine is given twice: as functions on `EventState` (used by the
 * lemmas that relate several operations) and as the class `EventIterator`,
 * whose methods update its fields in place and are proved against them.
 */
module Events {

  /** The `abort` option: none, the name of a sibling event, or an external signal. */
  datatype AbortTrigger = NoTrigger | OnEvent(name: string) | OnSignal

  /** What a pull of the adapter gives: an event, termination, or a wait. */
  datatype PullResult<E> = Value(value: E) | Done | Wait

  /** Buffered events, the abort flag, and whether a pull is waiting to be woken. */
  datatype EventState<E> = EventState(buffer: seq<E>, aborted: bool, waiting: bool)

  /** The state right after `fromEvents` returns. */
  function Initial<E>(): EventState<E>
  {
    EventState([], false, false)
  }

  /**
   * The target dispatches an event called `name`. The buffering listener was
   * registered first, so when `name` is both the collected event and the
   * abort event, the event is buffered and then the adapter aborts.
   */
  function Dispatched<E>(s: EventState<E>, eventName: string, trigger: AbortTrigger, name: string, e: E): (t: EventState<E>)
    ensures s.aborted ==> t == s
    ensures !s.aborted && name == eventName ==> t.buffer == s.buffer + [e] && !t.waiting
    ensures name != eventName ==> t.buffer == s.buffer
    ensures t.aborted <==> s.aborted || trigger == OnEvent(name)
    ensures t.aborted && !s.aborted ==> !t.waiting
  {
    if s.aborted then s
    else
      var buffered := if name == eventName then EventState(s.buffer + [e], false, false) else s;
      if trigger == OnEvent(name) then buffered.(aborted := true, waiting := false) else buffered
  }

  /** The external abort signal fires its `abort` event. */
  function Signalled<E>(s: EventState<E>, trigger: AbortTrigger): (t: EventState<E>)
    ensures t.buffer == s.buffer
    ensures t.aborted <==> s.aborted || trigger == OnSignal
    ensures s.aborted ==> t == s
  {
    if !s.aborted && trigger == OnSignal then s.(aborted := true, waiting := false) else s
  }

  /** One `next()`: done when aborted, else the oldest event, else wait. */
  function Pulled<E>(s: EventState<E>): (p: (PullResult<E>, EventState<E>))
    ensures s.aborted ==> p == (Done, s)
    ensures !s.aborted && s.buffer != [] ==> p.0 == Value(s.buffer[0]) && p.1.buffer == s.buffer[1..]
    ensures !s.aborted && s.buffer == [] ==> p.0 == Wait && p.1.waiting
    ensures p.1.aborted == s.aborted
  {
    if s.aborted then (Done, s)
    else if s.buffer != [] then (Value(s.buffer[0]), s.(buffer := s.buffer[1..]))
    else (Wait, s.(waiting := true))
  }

  /** What can happen to the adapter: a dispatch on the target, the signal, a pull. */
  datatype Op<E> = Dispatch(name: string, event: E) | Signal | Pull

  /** The results of the pulls among `ops`, in order, and the state after all of them. */
  function Run<E>(s: EventState<E>, eventName: string, trigger: AbortTrigger, ops: seq<Op<E>>): (seq<PullResult<E>>, EventState<E>)
    decreases |ops|
  {
    if ops == [] then ([], s)
    else
      match ops[0]
      case Dispatch(name, e) => Run(Dispatched(s, eventName, trigger, name, e), eventName, trigger, ops[1..])
      case Signal => Run(Signalled(s, trigger), eventName, trigger, ops[1..])
      case Pull =>
        var (r, t) := Pulled(s);
        var (rs, u) := Run(t, eventName, trigger, ops[1..]);
        ([r] + rs, u)
  }

  /** Running `a` and then `b` is running `a + b`. */
  lemma {:induction false} RunConcat<E>(s: EventState<E>, eventName: string, trigger: AbortTrigger, a: seq<Op<E>>, b: seq<Op<E>>)
    ensures var (ra, t) := Run(s, eventName, trigger, a);
            var (rb, u) := Run(t, eventName, trigger, b);
            Run(s, eventName, trigger, a + b) == (ra + rb, u)
    decreases |a|
  {
    if a == [] {
      assert a + b == b;
      var (rb, u) := Run(s, eventName, trigger, b);
      assert [] + rb == rb;
    } else {
      assert (a + b)[0] == a[0] && (a + b)[1..] == a[1..] + b;
      match a[0]
      case Dispatch(name, e) =>
        RunConcat(Dispatched(s, eventName, trigger, name, e), eventName, trigger, a[1..], b);
      case Signal =>
        RunConcat(Signalled(s, trigger), eventName, trigger, a[1..], b);
      case Pull =>
        var (r, t) := Pulled(s);
        RunConcat(t, eventName, trigger, a[1..], b);
        var (ra, t') := Run(t, eventName, trigger, a[1..]);
        var (rb, u) := Run(t', eventName, trigger, b);
        assert [r] + (ra + rb) == ([r] + ra) + rb;
    }
  }

  /**
   * The abort flag is one-way and final: once aborted, whatever is dispatched,
   * signalled or pulled, every pull returns done and the buffer never changes.
   */
  lemma {:induction false} AbortIsFinal<E>(s: EventState<E>, eventName: string, trigger: AbortTrigger, ops: seq<Op<E>>)
    requires s.aborted
    ensures Run(s, eventName, trigger, ops).1 == s
    ensures forall k :: 0 <= k < |Run(s, eventName, trigger, ops).0| ==> Run(s, eventName, trigger, ops).0[k] == Done
    decreases |ops|
  {
    if ops != [] {
      AbortIsFinal(s, eventName, trigger, ops[1..]);
    }
  }

  /** Dispatching each of `events` as the collected event, in order. */
  function Dispatches<E>(eventName: string, events: seq<E>): (ops: seq<Op<E>>)
    ensures |ops| == |events|
    decreases |events|
  {
    if events == [] then [] else [Dispatch(eventName, events[0])] + Dispatches(eventName, events[1..])
  }

  /** `n` consecutive pulls. */
  function Pulls<E>(n: nat): (ops: seq<Op<E>>)
    ensures |ops| == n
  {
    if n == 0 then [] else [Pull] + Pulls(n - 1)
  }

  /** Each of `events` as a successful pull result. */
  function Values<E>(events: seq<E>): (rs: seq<PullResult<E>>)
    ensures |rs| == |events|
    decreases |events|
  {
    if events == [] then [] else [Value(events[0])] + Values(events[1..])
  }

  /** Dispatches that do not abort append their events to the buffer, in order. */
  lemma {:induction false} DispatchesAppend<E>(s: EventState<E>, eventName: string, trigger: AbortTrigger, events: seq<E>)
    requires !s.aborted && trigger != OnEvent(eventName)
    ensures var (rs, t) := Run(s, eventName, trigger, Dispatches(eventName, events));
            rs == [] && t.buffer == s.buffer + events && !t.aborted
    decreases |events|
  {
    if events != [] {
      var t := Dispatched(s, eventName, trigger, eventName, events[0]);
      DispatchesAppend(t, eventName, trigger, events[1..]);
      assert s.buffer + [events[0]] + events[1..] == s.buffer + events;
    }
  }

  /** While not aborted, as many pulls as buffered events return them oldest first. */
  lemma {:induction false} PullsDrain<E>(s: EventState<E>, eventName: string, trigger: AbortTrigger)
    requires !s.aborted
    ensures var (rs, t) := Run(s, eventName, trigger, Pulls(|s.buffer|));
            rs == Values(s.buffer) && t.buffer == [] && !t.aborted
    decreases |s.buffer|
  {
    if s.buffer != [] {
      PullsDrain(Pulled(s).1, eventName, trigger);
    }
  }

  /**
   * FIFO: events dispatched before any pull are returned by the following
   * pulls in dispatch order, after whatever was already buffered.
   */
  lemma FifoDelivery<E>(s: EventState<E>, eventName: string, trigger: AbortTrigger, events: seq<E>)
    requires !s.aborted && trigger != OnEvent(eventName)
    ensures Run(s, eventName, trigger, Dispatches(eventName, events) + Pulls(|s.buffer| + |events|)).0
         == Values(s.buffer + events)
  {
    var dispatches := Dispatches(eventName, events);
    var pulls: seq<Op<E>> := Pulls(|s.buffer| + |events|);
    RunConcat(s, eventName, trigger, dispatches, pulls);
    DispatchesAppend(s, eventName, trigger, events);
    var t := Run(s, eventName, trigger, dispatches).1;
    PullsDrain(t, eventName, trigger);
  }

  /**
   * A pull reports done only once the adapter is aborted: in any run whose
   * final state is not aborted, no pull returned done (an empty buffer makes a
   * pull wait instead). Without an `abort` option nothing ever aborts, so the
   * adapter never ends.
   */
  lemma {:induction false} DoneOnlyAfterAbort<E>(s: EventState<E>, eventName: string, trigger: AbortTrigger, ops: seq<Op<E>>)
    ensures var (rs, t) := Run(s, eventName, trigger, ops);
            !t.aborted ==> forall k :: 0 <= k < |rs| ==> rs[k] != Done
    ensures trigger == NoTrigger && !s.aborted ==> !Run(s, eventName, trigger, ops).1.aborted
    decreases |ops|
  {
    if ops != [] {
      match ops[0]
      case Dispatch(name, e) =>
        DoneOnlyAfterAbort(Dispatched(s, eventName, trigger, name, e), eventName, trigger, ops[1..]);
      case Signal =>
        DoneOnlyAfterAbort(Signalled(s, trigger), eventName, trigger, ops[1..]);
      case Pull =>
        DoneOnlyAfterAbort(Pulled(s).1, eventName, trigger, ops[1..]);
        if s.aborted {
          AbortIsFinal(s, eventName, trigger, ops);
        }
    }
  }

  /**
   * The wait is resolved by a buffered event or by the abort, and the retried
   * pull then has an answer: it does not wait a second time.
   */
  lemma {:induction false} WokenPullAnswers<E>(s: EventState<E>, eventName: string, trigger: AbortTrigger, ops: seq<Op<E>>)
    requires s.waiting && s.buffer == [] && !s.aborted
    requires !Run(s, eventName, trigger, ops).1.waiting
    requires forall k :: 0 <= k < |ops| ==> !ops[k].Pull?
    ensures Pulled(Run(s, eventName, trigger, ops).1).0 != Wait
    decreases |ops|
  {
    if ops != [] {
      var t := match ops[0]
        case Dispatch(name, e) => Dispatched(s, eventName, trigger, name, e)
        case Signal => Signalled(s, trigger)
        case Pull => s;
      if t.waiting {
        assert t == s;
        WokenPullAnswers(t, eventName, trigger, ops[1..]);
      } else {
        NoPullKeepsAnswer(t, eventName, trigger, ops[1..]);
      }
    }
  }

  /** Without pulls, a state with an answer (an event or the abort) keeps one. */
  lemma {:induction false} NoPullKeepsAnswer<E>(s: EventState<E>, eventName: string, trigger: AbortTrigger, ops: seq<Op<E>>)
    requires s.aborted || s.buffer != []
    requires forall k :: 0 <= k < |ops| ==> !ops[k].Pull?
    ensures var t := Run(s, eventName, trigger, ops).1; t.aborted || t.buffer != []
    decreases |ops|
  {
    if ops != [] {
      match ops[0]
      case Dispatch(name, e) =>
        NoPullKeepsAnswer(Dispatched(s, eventName, trigger, name, e), eventName, trigger, ops[1..]);
      case Signal =>
        NoPullKeepsAnswer(Signalled(s, trigger), eventName, trigger, ops[1..]);
    }
  }

  /** The adapter object: its listeners' effect and its `next()`. */
  class EventIterator<E> {
    const eventName: string
    const trigger: AbortTrigger
    var buffer: seq<E>
    var aborted: bool
    var waiting: bool

    function State(): EventState<E>
      reads this
    {
      EventState(buffer, aborted, waiting)
    }

    /** `fromEvents(target, eventName, { abort })`: listeners attached, nothing buffered. */
    constructor FromEvents(eventName: string, trigger: AbortTrigger)
      ensures this.eventName == eventName && this.trigger == trigger
      ensures State() == Initial()
    {
      this.eventName := eventName;
      this.trigger := trigger;
      buffer := [];
      aborted := false;
      waiting := false;
    }

    /** The target dispatches an event called `name` to the attached listeners. */
    method Dispatch(name: string, e: E)
      modifies this
      ensures State() == Dispatched(old(State()), eventName, trigger, name, e)
    {
      if aborted {
        // the listeners were removed by the controller's signal
        return;
      }
      if name == eventName {
        buffer := buffer + [e];
        waiting := false;
      }
      if trigger == OnEvent(name) {
        aborted := true;
        waiting := false;
      }
    }

    /** The external abort signal fires: its listener aborts the controller. */
    method SignalAbort()
      modifies this
      ensures State() == Signalled(old(State()), trigger)
    {
      if !aborted && trigger == OnSignal {
        aborted := true;
        waiting := false;
      }
    }

    /** `next()`: done once aborted, else the oldest buffered event, else wait. */
    method Pull() returns (r: PullResult<E>)
      modifies this
      ensures (r, State()) == Pulled(old(State()))
    {
      if aborted {
        return Done;
      }
      if |buffer| > 0 {
        r := Value(buffer[0]);
        buffer := buffer[1..];
        return;
      }
      waiting := true;
      r := Wait;
    }
  }
}
