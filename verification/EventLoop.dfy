/**
  Emitting signals across threads, with connections fixed: over every run of emissions and loop
  turns, queued calls are exact and in order.
 */
module EventLoop {
  import opened SignalSlot

  /** An emission carried out on a thread. */
  datatype Handling = Handling(signal: Signal, value: Value, thread: ThreadId)

  datatype Emission = Emission(signal: Signal, value: Value)

  datatype Delivery = Delivery(slot: Slot, value: Value)

  /** Queues and calls, and the history: what was emitted and what was carried out, each in order. */
  datatype System = System(state: State, emitted: seq<Emission>, handled: seq<Handling>)

  datatype Event = Emit(signal: Signal, value: Value, caller: ThreadId) | Turn(thread: ThreadedObject)

  /** Queued connections have parents, and every thread belonging to an end of a connection is known. */
  ghost predicate Wired(x: Graph, threads: set<ThreadedObject>) {
    && x.direct.Keys == x.queued.Keys && Placed(x)
    && (forall g | g in x.queued :: Rooted(x.queued[g], threads))
    && (forall g | g in x.queued :: g.parent.Threaded? ==> g.parent.root in threads)
  }

  /** Tasks stand in the queue of the thread they are for. */
  ghost predicate Housed(x: Graph, q: seq<Task>, o: ThreadedObject) {
    forall task | task in q ::
      match task
      case Deliver(t, _) => t.parent == Threaded(o)
      case EmitLater(g, _) => g in x.queued && g.parent == Threaded(o)
  }

  ghost predicate Running(x: Graph, s: State) {
    Wired(x, s.queues.Keys) && forall o | o in s.queues :: Housed(x, s.queues[o], o)
  }

  /** Queueing the signal's calls comes to a slot that throws. */
  ghost predicate Throws(x: Graph, g: Signal) {
    g in x.queued && exists t :: t in x.queued[g] && t.parent.Plain?
  }

  /** Who emits may catch what is thrown; thrown in a turn of the loop, it ends the program. */
  ghost predicate Legal(x: Graph, s: System, e: Event) {
    && Running(x, s.state)
    && match e
       case Emit(g, _, _) => g in x.queued
       case Turn(o) => o in s.state.queues && s.state.queues[o] != [] && !Fatal(x, s.state.queues[o][0])
  }

  ghost predicate Fatal(x: Graph, front: Task) {
    front.EmitLater? && Throws(x, front.signal)
  }

  /** An emission on thread `caller` is carried out there and then. */
  predicate AtOnce(g: Signal, caller: ThreadId) {
    g.parent.NoParent? || caller == g.parent.ThreadId(caller)
  }

  ghost function Step(x: Graph, s: System, e: Event): System
    requires Legal(x, s, e)
  {
    match e
    case Emit(g, value, caller) =>
      System(Emitted(s.state, g, x.direct[g], x.queued[g], value, caller).state,
             s.emitted + [Emission(g, value)],
             if AtOnce(g, caller) then s.handled + [Handling(g, value, caller)] else s.handled)
    case Turn(o) =>
      match s.state.queues[o][0]
      case Deliver(_, _) => s.(state := Turned(s.state, o, [], []).state)
      case EmitLater(g, value) =>
        assert s.state.queues[o][0] in s.state.queues[o];
        s.(state := Turned(s.state, o, x.direct[g], x.queued[g]).state,
            handled := s.handled + [Handling(g, value, o.threadId)])
  }

  ghost predicate LegalRun(x: Graph, s: System, events: seq<Event>)
    decreases |events|
  {
    events == [] || (Legal(x, s, events[0]) && LegalRun(x, Step(x, s, events[0]), events[1..]))
  }

  ghost function Run(x: Graph, s: System, events: seq<Event>): System
    requires LegalRun(x, s, events)
    decreases |events|
  {
    if events == [] then s else Run(x, Step(x, s, events[0]), events[1..])
  }

  ghost function Idle(threads: set<ThreadedObject>): System {
    System(State(map o | o in threads :: [], []), [], [])
  }

  // ---- reading lists

  function Gather<A, B>(s: seq<A>, f: A -> seq<B>): seq<B> {
    if s == [] then [] else f(s[0]) + Gather(s[1..], f)
  }

  lemma GatherFirst<A, B>(s: seq<A>, f: A -> seq<B>)
    requires s != []
    ensures Gather(s, f) == f(s[0]) + Gather(s[1..], f)
  {}

  lemma Nothing<T>(s: seq<T>)
    ensures [] + s == s
  {}

  lemma GatherNone<A, B>(f: A -> seq<B>)
    ensures Gather([], f) == []
  {}

  lemma Assoc<T>(a: seq<T>, b: seq<T>, c: seq<T>)
    ensures a + b + c == a + (b + c)
  {}

  lemma {:induction false} GatherSum<A, B>(a: seq<A>, b: seq<A>, f: A -> seq<B>)
    ensures Gather(a + b, f) == Gather(a, f) + Gather(b, f)
  {
    hide Gather;
    if a == [] {
      assert a + b == b;
      GatherNone<A, B>(f);
      Nothing(Gather(b, f));
    } else {
      GatherSum(a[1..], b, f);
      GatherFirst(a, f);
      GatherFirst(a + b, f);
      assert (a + b)[1..] == a[1..] + b;
      Assoc(f(a[0]), Gather(a[1..], f), Gather(b, f));
    }
  }

  lemma GatherMore<A, B>(a: seq<A>, x: A, f: A -> seq<B>)
    ensures Gather(a + [x], f) == Gather(a, f) + f(x)
  {
    GatherSum(a, [x], f);
    assert [x][1..] == [];
  }

  lemma {:induction false} GatherTwice<A, B, C>(s: seq<A>, f: A -> seq<B>, g: B -> seq<C>, h: A -> seq<C>)
    requires forall i | 0 <= i < |s| :: Gather(f(s[i]), g) == h(s[i])
    ensures Gather(Gather(s, f), g) == Gather(s, h)
  {
    if s != [] {
      GatherSum(f(s[0]), Gather(s[1..], f), g);
      GatherTwice(s[1..], f, g, h);
    }
  }

  /** Calls made through direct connections. */
  function Directly(): Invocation -> seq<Invocation> {
    (c: Invocation) => if c.queued then [] else [c]
  }

  /** Calls made from the queue of `o`. */
  function From(o: ThreadedObject): Invocation -> seq<Delivery> {
    (c: Invocation) => if c.queued && c.slot.parent == Threaded(o) then [Delivery(c.slot, c.value)] else []
  }

  /** Calls still queued. */
  function Waiting(): Task -> seq<Delivery> {
    (task: Task) => if task.Deliver? then [Delivery(task.slot, task.value)] else []
  }

  /** Emissions of `g` still queued. */
  function Later(g: Signal): Task -> seq<Value> {
    (task: Task) => if task.EmitLater? && task.signal == g then [task.value] else []
  }

  function To(o: ThreadedObject, value: Value): Slot -> seq<Delivery> {
    (t: Slot) => if t.parent == Threaded(o) then [Delivery(t, value)] else []
  }

  /** The slots that come before one that throws. */
  function Served(slots: seq<Slot>): seq<Slot> {
    if slots == [] || slots[0].parent.Plain? then [] else [slots[0]] + Served(slots[1..])
  }

  /** The queued calls at `o` that one emission is for. */
  function CallsAt(x: Graph, o: ThreadedObject): Handling -> seq<Delivery> {
    (h: Handling) => if h.signal in x.queued then Gather(Served(x.queued[h.signal]), To(o, h.value)) else []
  }

  /** The direct calls that one emission is for. */
  function CallsOf(x: Graph): Handling -> seq<Invocation> {
    (h: Handling) => if h.signal in x.direct then Calls(h.thread, x.direct[h.signal], h.value) else []
  }

  // ---- what an emission queues

  /** Queueing calls throws if and only if one of the slots belongs to a root without a queue. */
  lemma {:induction false} SendAllThrowsIff(queues: map<ThreadedObject, seq<Task>>, slots: seq<Slot>, value: Value)
    requires Rooted(slots, queues.Keys)
    ensures SendAll(queues, slots, value).threw <==> exists t :: t in slots && t.parent.Plain?
  {
    if slots != [] {
      assert slots[0] in slots;
      var rest := slots[1..];
      assert forall t :: t in slots <==> t == slots[0] || t in rest;
      match slots[0].parent
      case NoParent => SendAllThrowsIff(queues, rest, value);
      case Plain =>
      case Threaded(root) => SendAllThrowsIff(Push(queues, root, Deliver(slots[0], value)), rest, value);
    }
  }

  /** Queueing the first slot's call moves it from the slots to come to the calls waiting. */
  lemma PushWaiting(queues: map<ThreadedObject, seq<Task>>, slots: seq<Slot>, value: Value, o: ThreadedObject)
    requires o in queues && slots != [] && slots[0].parent.Threaded? && slots[0].parent.root in queues
    ensures var pushed := Push(queues, slots[0].parent.root, Deliver(slots[0], value));
            Gather(pushed[o], Waiting()) + Gather(slots[1..], To(o, value))
            == Gather(queues[o], Waiting()) + Gather(slots, To(o, value))
  {
    hide Gather, Waiting, To;
    GatherFirst(slots, To(o, value));
    if slots[0].parent.root == o {
      var d := Delivery(slots[0], value);
      GatherMore(queues[o], Deliver(slots[0], value), Waiting());
      PartsAre(slots[0], value, o);
      Assoc(Gather(queues[o], Waiting()), [d], Gather(slots[1..], To(o, value)));
    } else {
      PartsAre(slots[0], value, o);
      Nothing(Gather(slots[1..], To(o, value)));
    }
  }

  lemma PartsAre(t: Slot, value: Value, o: ThreadedObject)
    ensures To(o, value)(t) == if t.parent == Threaded(o) then [Delivery(t, value)] else []
    ensures Waiting()(Deliver(t, value)) == [Delivery(t, value)]
  {}

  lemma ServedIs(slots: seq<Slot>)
    requires slots != [] && !slots[0].parent.Plain?
    ensures Served(slots) != [] && Served(slots)[0] == slots[0] && Served(slots)[1..] == Served(slots[1..])
  {}

  /** With no slot that throws, all are served. */
  lemma {:induction false} AllServed(slots: seq<Slot>)
    requires forall t | t in slots :: !t.parent.Plain?
    ensures Served(slots) == slots
  {
    if slots != [] {
      assert slots[0] in slots;
      AllServed(slots[1..]);
    }
  }

  /** Each queue gains the calls of its slots, in list order, up to one that throws. */
  lemma {:induction false} SendAllExact(queues: map<ThreadedObject, seq<Task>>, slots: seq<Slot>, value: Value,
      o: ThreadedObject)
    requires Rooted(slots, queues.Keys) && o in queues
    ensures Gather(SendAll(queues, slots, value).queues[o], Waiting())
         == Gather(queues[o], Waiting()) + Gather(Served(slots), To(o, value))
  {
    if slots == [] || slots[0].parent.Plain? {
      assert Gather(Served(slots), To(o, value)) == [];
    } else {
      assert slots[0] in slots;
      ServedIs(slots);
      if slots[0].parent.NoParent? {
        assert Gather(Served(slots), To(o, value)) == Gather(Served(slots[1..]), To(o, value));
        SendAllExact(queues, slots[1..], value, o);
      } else {
        hide Gather, Served;
        PushWaiting(queues, Served(slots), value, o);
        SendAllExact(Push(queues, slots[0].parent.root, Deliver(slots[0], value)), slots[1..], value, o);
      }
    }
  }

  lemma {:induction false} SendAllQuiet(x: Graph, queues: map<ThreadedObject, seq<Task>>, slots: seq<Slot>,
      value: Value, o: ThreadedObject, g: Signal)
    requires Rooted(slots, queues.Keys) && o in queues
    ensures var r := SendAll(queues, slots, value);
            && Gather(r.queues[o], Later(g)) == Gather(queues[o], Later(g))
            && (Housed(x, queues[o], o) ==> Housed(x, r.queues[o], o))
  {
    if slots != [] {
      assert slots[0] in slots;
      match slots[0].parent
      case NoParent =>
        SendAllQuiet(x, queues, slots[1..], value, o, g);
      case Plain =>
      case Threaded(root) =>
        var task := Deliver(slots[0], value);
        SendAllQuiet(x, Push(queues, root, task), slots[1..], value, o, g);
        GatherMore(queues[o], task, Later(g));
    }
  }

  // ---- invariants

  /** At a queue, the calls made from it, then those waiting in it, are those the handled emissions are for. */
  ghost predicate ExactAt(x: Graph, state: State, handled: seq<Handling>, o: ThreadedObject)
    requires o in state.queues
  {
    Gather(state.calls, From(o)) + Gather(state.queues[o], Waiting()) == Gather(handled, CallsAt(x, o))
  }

  /** The direct calls made are those the handled emissions are for. */
  ghost predicate Direct(x: Graph, calls: seq<Invocation>, handled: seq<Handling>) {
    Gather(calls, Directly()) == Gather(handled, CallsOf(x))
  }

  /** Emissions are handled on their owner's thread. */
  ghost predicate Owned(handled: seq<Handling>) {
    forall h | h in handled :: h.signal.parent.Threaded? ==> h.thread == h.signal.parent.root.threadId
  }

  ghost predicate Inv(x: Graph, s: System) {
    && Running(x, s.state)
    && (forall o | o in s.state.queues :: ExactAt(x, s.state, s.handled, o))
    && Direct(x, s.state.calls, s.handled)
    && Owned(s.handled)
  }

  lemma {:induction false} CallsAreDirect(thread: ThreadId, slots: seq<Slot>, value: Value)
    ensures Gather(Calls(thread, slots, value), Directly()) == Calls(thread, slots, value)
  {
    if slots != [] {
      CallsAreDirect(thread, slots[1..], value);
      assert Calls(thread, slots, value)[1..] == Calls(thread, slots[1..], value);
    }
  }

  lemma {:induction false} CallsAreNotQueued(thread: ThreadId, slots: seq<Slot>, value: Value, o: ThreadedObject)
    ensures Gather(Calls(thread, slots, value), From(o)) == []
  {
    if slots != [] {
      CallsAreNotQueued(thread, slots[1..], value, o);
      assert Calls(thread, slots, value)[1..] == Calls(thread, slots[1..], value);
    }
  }

  /** Carrying an emission out keeps every queue in order, and throws if a slot does. */
  lemma HandledRuns(x: Graph, s: State, g: Signal, value: Value, thread: ThreadId)
    requires Running(x, s) && g in x.queued
    ensures var r := Handled(s, x.direct[g], x.queued[g], value, thread);
            && (r.threw <==> Throws(x, g)) && Running(x, r.state) && r.state.queues.Keys == s.queues.Keys
            && forall o | o in s.queues :: s.queues[o] <= r.state.queues[o]
  {
    SendAllThrowsIff(s.queues, x.queued[g], value);
    forall o | o in s.queues ensures Housed(x, SendAll(s.queues, x.queued[g], value).queues[o], o) {
      SendAllQuiet(x, s.queues, x.queued[g], value, o, g);
    }
  }

  lemma Append<T>(made: seq<T>, waiting: seq<T>, all: seq<T>, more: seq<T>)
    requires made + waiting == all
    ensures made + [] + (waiting + more) == all + more
  {}

  /** Carrying an emission out adds its queued calls to each queue. */
  lemma HandledExact(x: Graph, s: State, handled: seq<Handling>, g: Signal, value: Value, thread: ThreadId,
      o: ThreadedObject)
    requires Running(x, s) && g in x.queued && o in s.queues && ExactAt(x, s, handled, o)
    ensures var r := Handled(s, x.direct[g], x.queued[g], value, thread);
            ExactAt(x, r.state, handled + [Handling(g, value, thread)], o)
  {
    SendAllExact(s.queues, x.queued[g], value, o);
    CallsAreNotQueued(thread, x.direct[g], value, o);
    GatherSum(s.calls, Calls(thread, x.direct[g], value), From(o));
    GatherMore(handled, Handling(g, value, thread), CallsAt(x, o));
    assert CallsAt(x, o)(Handling(g, value, thread)) == Gather(Served(x.queued[g]), To(o, value));
    hide Gather, Served, SendAll, Running, CallsAt, To, From, Waiting;
    Append(Gather(s.calls, From(o)), Gather(s.queues[o], Waiting()), Gather(handled, CallsAt(x, o)),
        Gather(Served(x.queued[g]), To(o, value)));
  }

  /** Carrying an emission out makes its direct calls. */
  lemma HandledDirect(x: Graph, s: State, handled: seq<Handling>, g: Signal, value: Value, thread: ThreadId)
    requires Running(x, s) && g in x.queued && Direct(x, s.calls, handled)
    ensures Direct(x, Handled(s, x.direct[g], x.queued[g], value, thread).state.calls,
           handled + [Handling(g, value, thread)])
  {
    CallsAreDirect(thread, x.direct[g], value);
    GatherSum(s.calls, Calls(thread, x.direct[g], value), Directly());
    GatherMore(handled, Handling(g, value, thread), CallsOf(x));
    hide Gather;
  }

  lemma HandlingKeeps(x: Graph, s: System, g: Signal, value: Value, thread: ThreadId)
    requires Inv(x, s) && g in x.queued && (g.parent.Threaded? ==> thread == g.parent.root.threadId)
    ensures var r := Handled(s.state, x.direct[g], x.queued[g], value, thread);
            Inv(x, System(r.state, s.emitted, s.handled + [Handling(g, value, thread)]))
  {
    hide Handled, ExactAt, Direct, Housed;
    HandledRuns(x, s.state, g, value, thread);
    HandledDirect(x, s.state, s.handled, g, value, thread);
    var r := Handled(s.state, x.direct[g], x.queued[g], value, thread);
    forall o | o in s.state.queues ensures ExactAt(x, r.state, s.handled + [Handling(g, value, thread)], o) {
      HandledExact(x, s.state, s.handled, g, value, thread, o);
    }
  }

  lemma QueuedHasParent(x: Graph, g: Signal, i: nat)
    requires Placed(x) && g in x.queued && i < |x.queued[g]|
    ensures !g.parent.NoParent?
  {
    assert x.queued[g][i] in x.queued[g];
  }

  lemma NoParentNoQueue(x: Graph, g: Signal)
    requires Placed(x) && g in x.queued && g.parent.NoParent?
    ensures x.queued[g] == []
  {
    hide Placed;
    if x.queued[g] != [] { QueuedHasParent(x, g, 0); }
  }

  /** An emission carried out at once is the handling of all its connections. */
  lemma AtOnceIsHandled(x: Graph, s: State, g: Signal, value: Value, caller: ThreadId)
    requires Running(x, s) && g in x.queued
    ensures var r := Emitted(s, g, x.direct[g], x.queued[g], value, caller);
            if AtOnce(g, caller) then r == Handled(s, x.direct[g], x.queued[g], value, caller)
            else
              && g.parent.Threaded?
              && r == Effect(s.(queues := Push(s.queues, g.parent.root, EmitLater(g, value))), false)
  {
    if g.parent.NoParent? { NoParentNoQueue(x, g); }
  }

  lemma HousedMore(x: Graph, q: seq<Task>, o: ThreadedObject, g: Signal, value: Value)
    requires Housed(x, q, o) && g in x.queued && g.parent == Threaded(o)
    ensures Housed(x, q + [EmitLater(g, value)], o)
  {}

  lemma HousedLess(x: Graph, q: seq<Task>, o: ThreadedObject)
    requires Housed(x, q, o) && q != []
    ensures Housed(x, q[1..], o)
  {
    assert forall task | task in q[1..] :: task in q;
  }

  lemma PostedKeeps(x: Graph, s: System, g: Signal, value: Value)
    requires Inv(x, s) && g in x.queued && g.parent.Threaded? && g.parent.root in s.state.queues
    ensures Inv(x, s.(state := s.state.(queues := Push(s.state.queues, g.parent.root, EmitLater(g, value)))))
  {
    var o := g.parent.root;
    GatherMore(s.state.queues[o], EmitLater(g, value), Waiting());
    assert Gather(s.state.queues[o] + [EmitLater(g, value)], Waiting()) == Gather(s.state.queues[o], Waiting());
    HousedMore(x, s.state.queues[o], o, g, value);
    hide Gather, Waiting, Wired, Housed, Direct, Owned, CallsAt, From;
  }

  lemma EmitKeeps(x: Graph, s: System, g: Signal, value: Value, caller: ThreadId)
    requires Inv(x, s) && Legal(x, s, Emit(g, value, caller))
    ensures Inv(x, Step(x, s, Emit(g, value, caller)))
    ensures Emitted(s.state, g, x.direct[g], x.queued[g], value, caller).threw <==> AtOnce(g, caller) && Throws(x, g)
  {
    AtOnceIsHandled(x, s.state, g, value, caller);
    if AtOnce(g, caller) {
      HandledRuns(x, s.state, g, value, caller);
      HandlingKeeps(x, s, g, value, caller);
    } else {
      PostedKeeps(x, s, g, value);
    }
  }

  lemma FromIs(call: Invocation, o: ThreadedObject)
    ensures call.queued && call.slot.parent == Threaded(o) ==> From(o)(call) == [Delivery(call.slot, call.value)]
    ensures !(call.queued && call.slot.parent == Threaded(o)) ==> From(o)(call) == []
  {}

  /** A call taken from the front of its queue moves from those waiting to those made. */
  lemma DeliverExact(x: Graph, s: State, handled: seq<Handling>, o: ThreadedObject, p: ThreadedObject)
    requires Running(x, s) && o in s.queues && s.queues[o] != [] && s.queues[o][0].Deliver?
    requires p in s.queues && ExactAt(x, s, handled, p)
    ensures ExactAt(x, Turned(s, o, [], []).state, handled, p)
  {
    var task := s.queues[o][0];
    assert task in s.queues[o];
    var call := Invocation(o.threadId, task.slot, task.value, true);
    hide Gather, Running, CallsAt, From, Waiting;
    GatherMore(s.calls, call, From(p));
    FromIs(call, p);
    if p == o {
      GatherFirst(s.queues[o], Waiting());
      PartsAre(task.slot, task.value, o);
      Assoc(Gather(s.calls, From(o)), [Delivery(task.slot, task.value)], Gather(s.queues[o][1..], Waiting()));
    }
  }

  lemma DeliverRuns(x: Graph, s: State, o: ThreadedObject)
    requires Running(x, s) && o in s.queues && s.queues[o] != [] && s.queues[o][0].Deliver?
    ensures Running(x, Turned(s, o, [], []).state) && Turned(s, o, [], []).state.queues.Keys == s.queues.Keys
  {
    hide Wired, Housed;
    HousedLess(x, s.queues[o], o);
    assert Popped(s, o).queues.Keys == s.queues.Keys;
  }

  /** A call from a queue is no direct call. */
  lemma DeliverDirect(x: Graph, s: State, handled: seq<Handling>, o: ThreadedObject)
    requires o in s.queues && s.queues[o] != [] && s.queues[o][0].Deliver? && Direct(x, s.calls, handled)
    ensures Direct(x, Turned(s, o, [], []).state.calls, handled)
  {
    var task := s.queues[o][0];
    GatherMore(s.calls, Invocation(o.threadId, task.slot, task.value, true), Directly());
    NothingMore(Gather(s.calls, Directly()));
    hide Gather, CallsOf;
  }

  lemma NothingMore<T>(s: seq<T>)
    ensures s + [] == s
  {}

  lemma DeliverKeeps(x: Graph, s: System, o: ThreadedObject)
    requires Inv(x, s) && Legal(x, s, Turn(o)) && s.state.queues[o][0].Deliver?
    ensures Inv(x, Step(x, s, Turn(o)))
  {
    hide ExactAt, Direct, Gather, Running, CallsOf, Turned;
    DeliverRuns(x, s.state, o);
    DeliverDirect(x, s.state, s.handled, o);
    forall p | p in s.state.queues ensures ExactAt(x, Turned(s.state, o, [], []).state, s.handled, p) {
      DeliverExact(x, s.state, s.handled, o, p);
    }
  }

  /** Popping a handled emission leaves the waiting calls. */
  lemma PopKeeps(x: Graph, s: State, handled: seq<Handling>, o: ThreadedObject)
    requires Running(x, s) && o in s.queues && s.queues[o] != [] && s.queues[o][0].EmitLater?
    requires forall p | p in s.queues :: ExactAt(x, s, handled, p)
    ensures Running(x, Popped(s, o)) && forall p | p in s.queues :: ExactAt(x, Popped(s, o), handled, p)
  {
    hide ExactAt, Wired, Housed;
    HousedLess(x, s.queues[o], o);
    assert Popped(s, o).queues.Keys == s.queues.Keys;
    forall p | p in s.queues ensures ExactAt(x, Popped(s, o), handled, p) {
      PopExact(x, s, handled, o, p);
    }
  }

  lemma PopExact(x: Graph, s: State, handled: seq<Handling>, o: ThreadedObject, p: ThreadedObject)
    requires o in s.queues && s.queues[o] != [] && s.queues[o][0].EmitLater? && p in s.queues
           && ExactAt(x, s, handled, p)
    ensures ExactAt(x, Popped(s, o), handled, p)
  {
    assert Gather(s.queues[o], Waiting()) == Gather(s.queues[o][1..], Waiting());
    hide Gather, From, CallsAt, Waiting;
  }

  lemma LaterKeeps(x: Graph, s: System, o: ThreadedObject)
    requires Inv(x, s) && Legal(x, s, Turn(o)) && s.state.queues[o][0].EmitLater?
    ensures Inv(x, Step(x, s, Turn(o)))
  {
    var task := s.state.queues[o][0];
    assert task in s.state.queues[o];
    HandlingKeeps(x, s, task.signal, task.value, o.threadId);
    HandledRuns(x, s.state, task.signal, task.value, o.threadId);
    var r := Handled(s.state, x.direct[task.signal], x.queued[task.signal], task.value, o.threadId);
    hide Handled, Direct, ExactAt, Running, Housed;
    assert r.state.queues[o][0] == task;
    PopKeeps(x, r.state, s.handled + [Handling(task.signal, task.value, o.threadId)], o);
  }

  lemma StepKeeps(x: Graph, s: System, e: Event)
    requires Inv(x, s) && Legal(x, s, e)
    ensures Inv(x, Step(x, s, e))
  {
    hide Inv, Step;
    match e
    case Emit(g, value, caller) => EmitKeeps(x, s, g, value, caller);
    case Turn(o) =>
      match s.state.queues[o][0]
      case Deliver(_, _) => DeliverKeeps(x, s, o);
      case EmitLater(_, _) => LaterKeeps(x, s, o);
  }

  lemma {:induction false} RunKeeps(x: Graph, s: System, events: seq<Event>)
    requires Inv(x, s) && LegalRun(x, s, events)
    ensures Inv(x, Run(x, s, events))
    decreases |events|
  {
    hide Inv, Step, Legal;
    if events != [] {
      StepKeeps(x, s, events[0]);
      RunKeeps(x, Step(x, s, events[0]), events[1..]);
    }
  }

  lemma IdleInv(x: Graph, threads: set<ThreadedObject>)
    requires Wired(x, threads)
    ensures Inv(x, Idle(threads))
  {}
}
