/** From emission to slot: what every run of emissions and loop turns delivers, and in which order. */
module EmissionOrder {
  import opened SignalSlot
  import opened EventLoop
  import Lists

  /** Emissions of `g` among those made. */
  function Of(g: Signal): Emission -> seq<Value> {
    (e: Emission) => if e.signal == g then [e.value] else []
  }

  /** Emissions of `g` among those handled. */
  function By(g: Signal): Handling -> seq<Value> {
    (h: Handling) => if h.signal == g then [h.value] else []
  }

  /** Values `t` was called with from a queue. */
  function At(t: Slot): Invocation -> seq<Value> {
    (c: Invocation) => if c.queued && c.slot == t then [c.value] else []
  }

  /** Values `t` is still to be called with from a queue. */
  function DueAt(t: Slot): Task -> seq<Value> {
    (task: Task) => if task.Deliver? && task.slot == t then [task.value] else []
  }

  function ValueFor(t: Slot): Delivery -> seq<Value> {
    (d: Delivery) => if d.slot == t then [d.value] else []
  }

  function Same(t: Slot, value: Value): Slot -> seq<Value> {
    (u: Slot) => if u == t then [value] else []
  }

  /** Emissions of `g` waiting at the queue of its owner. */
  ghost function Pending(s: State, g: Signal): seq<Value> {
    if g.parent.Threaded? && g.parent.root in s.queues then Gather(s.queues[g.parent.root], Later(g)) else []
  }

  /** Emissions of `g` were handled in the order made, and the rest waits in that order. */
  ghost predicate InOrder(s: System, g: Signal) {
    Gather(s.emitted, Of(g)) == Gather(s.handled, By(g)) + Pending(s.state, g)
  }

  /** Every value in `p` is `v`. */
  ghost predicate AllAre<T>(p: seq<T>, v: T) {
    forall i | 0 <= i < |p| :: p[i] == v
  }

  lemma Rotates<T>(p: seq<T>, v: T)
    ensures p + [v] == [v] + p <==> AllAre(p, v)
  {
    if p + [v] == [v] + p { AllSame(p, v, |p|); }
  }

  lemma {:induction false} AllSame<T>(p: seq<T>, v: T, n: nat)
    requires n <= |p| && p + [v] == [v] + p
    ensures forall i | 0 <= i < n :: p[i] == v
  {
    if n > 0 {
      AllSame(p, v, n - 1);
      assert p[n - 1] == (p + [v])[n - 1] == ([v] + p)[n - 1];
    }
  }

  lemma Cancels<T>(h: seq<T>, a: seq<T>, b: seq<T>)
    ensures h + a == h + b <==> a == b
  {
    assert (h + a)[|h|..] == a && (h + b)[|h|..] == b;
  }

  /** What an emission of `h` adds to the emissions of `g` made, handled and waiting. */
  lemma EmitMoves(x: Graph, s: System, h: Signal, value: Value, caller: ThreadId, g: Signal)
    requires Legal(x, s, Emit(h, value, caller)) && g in x.queued
    ensures var s' := Step(x, s, Emit(h, value, caller));
            var more := if g == h then [value] else [];
            && Gather(s'.emitted, Of(g)) == Gather(s.emitted, Of(g)) + more
            && Gather(s'.handled, By(g)) == Gather(s.handled, By(g)) + (if AtOnce(h, caller) then more else [])
            && Pending(s'.state, g) == Pending(s.state, g) + (if AtOnce(h, caller) then [] else more)
  {
    AtOnceIsHandled(x, s.state, h, value, caller);
    OneIs(g, h, value, caller);
    hide Gather, Of, By, Later, Emitted, Handled, Running;
    GatherMore(s.emitted, Emission(h, value), Of(g));
    NothingMore(Gather(s.handled, By(g)));
    NothingMore(Pending(s.state, g));
    if AtOnce(h, caller) {
      hide Pending;
      GatherMore(s.handled, Handling(h, value, caller), By(g));
      HandledPending(x, s.state, h, value, caller, g);
    } else {
      GatherMore(s.state.queues[h.parent.root], EmitLater(h, value), Later(g));
    }
  }

  lemma OneIs(g: Signal, h: Signal, value: Value, thread: ThreadId)
    ensures var more := if g == h then [value] else [];
            Of(g)(Emission(h, value)) == more && By(g)(Handling(h, value, thread)) == more
                && Later(g)(EmitLater(h, value)) == more
  {}

  lemma HandledPending(x: Graph, s: State, h: Signal, value: Value, thread: ThreadId, g: Signal)
    requires Running(x, s) && h in x.queued && g in x.queued
    ensures Pending(Handled(s, x.direct[h], x.queued[h], value, thread).state, g) == Pending(s, g)
  {
    if g.parent.Threaded? {
      SendAllQuiet(x, s.queues, x.queued[h], value, g.parent.root, g);
    }
  }

  /** The emission of `g` a turn takes from the front of the queue, if it takes one. */
  function Taken(front: Task, g: Signal): seq<Value> {
    if front.EmitLater? && front.signal == g then [front.value] else []
  }

  /** What a turn moves from the emissions of `g` waiting to those handled. */
  lemma TurnMoves(x: Graph, s: System, o: ThreadedObject, g: Signal)
    requires Legal(x, s, Turn(o)) && g in x.queued
    ensures var s' := Step(x, s, Turn(o));
            var taken := Taken(s.state.queues[o][0], g);
            && s'.emitted == s.emitted
            && Gather(s'.handled, By(g)) == Gather(s.handled, By(g)) + taken
            && Pending(s.state, g) == taken + Pending(s'.state, g)
  {
    NothingMore(Gather(s.handled, By(g)));
    match s.state.queues[o][0]
    case Deliver(_, _) => PopMoves(s.state, o, g);
    case EmitLater(h, v) =>
      assert s.state.queues[o][0] in s.state.queues[o];
      HandledPending(x, s.state, h, v, o.threadId, g);
      HandledRuns(x, s.state, h, v, o.threadId);
      var r := Handled(s.state, x.direct[h], x.queued[h], v, o.threadId).state;
      hide Gather, By, Running, Handled, Pending;
      assert r.queues[o][0] == s.state.queues[o][0];
      PopMoves(r, o, g);
      GatherMore(s.handled, Handling(h, v, o.threadId), By(g));
      OneIs(g, h, v, o.threadId);
  }

  lemma PopMoves(s: State, o: ThreadedObject, g: Signal)
    requires o in s.queues && s.queues[o] != []
    requires var front := s.queues[o][0]; front.EmitLater? ==> front.signal.parent == Threaded(o)
    ensures Pending(s, g) == Taken(s.queues[o][0], g) + Pending(Popped(s, o), g)
  {
    GatherFirst(s.queues[o], Later(g));
    hide Gather;
    Nothing(Pending(s, g));
  }

  lemma NothingMore<T>(s: seq<T>)
    ensures s + [] == s
  {}

  /**
    Emitting keeps the order of a signal's emissions if and only if it does not overtake: carried
    out at once, it finds nothing waiting but emissions of the same value.
   */
  lemma EmitInOrderIff(x: Graph, s: System, g: Signal, value: Value, caller: ThreadId)
    requires Legal(x, s, Emit(g, value, caller)) && InOrder(s, g)
    ensures InOrder(Step(x, s, Emit(g, value, caller)), g)
       <==> (AtOnce(g, caller) ==> AllAre(Pending(s.state, g), value))
  {
    EmitMoves(x, s, g, value, caller, g);
    var p, h, e := Pending(s.state, g), Gather(s.handled, By(g)), Gather(s.emitted, Of(g));
    hide Gather, Of, By, Step, Legal, Pending;
    Assoc(h, p, [value]);
    NothingMore(h);
    if AtOnce(g, caller) {
      NothingMore(p);
      Assoc(h, [value], p);
      Cancels(h, p + [value], [value] + p);
      Rotates(p, value);
    }
  }

  lemma OtherEmitKeepsOrder(x: Graph, s: System, h: Signal, value: Value, caller: ThreadId, g: Signal)
    requires Legal(x, s, Emit(h, value, caller)) && InOrder(s, g) && g in x.queued && g != h
    ensures InOrder(Step(x, s, Emit(h, value, caller)), g)
  {
    EmitMoves(x, s, h, value, caller, g);
    hide Gather, Of, By, Step, Legal, Pending;
    NothingMore(Gather(s.emitted, Of(g)));
    NothingMore(Gather(s.handled, By(g)));
    NothingMore(Pending(s.state, g));
  }

  lemma TurnKeepsOrder(x: Graph, s: System, o: ThreadedObject, g: Signal)
    requires Legal(x, s, Turn(o)) && InOrder(s, g) && g in x.queued
    ensures InOrder(Step(x, s, Turn(o)), g)
  {
    TurnMoves(x, s, o, g);
    var taken := Taken(s.state.queues[o][0], g);
    hide Gather, Of, By, Step, Pending, Taken, Running, Fatal;
    Assoc(Gather(s.handled, By(g)), taken, Pending(Step(x, s, Turn(o)).state, g));
  }

  /** No emission of `g` is lost or doubled: each was handled or waits, as often as it was made. */
  ghost predicate Conserved(s: System, g: Signal) {
    multiset(Gather(s.emitted, Of(g))) == multiset(Gather(s.handled, By(g))) + multiset(Pending(s.state, g))
  }

  lemma StepConserves(x: Graph, s: System, e: Event, g: Signal)
    requires Legal(x, s, e) && Conserved(s, g) && g in x.queued
    ensures Conserved(Step(x, s, e), g)
  {
    match e
    case Emit(h, value, caller) =>
      EmitMoves(x, s, h, value, caller, g);
      hide Gather, Of, By, Step, Legal, Pending, AtOnce;
      More(Gather(s.emitted, Of(g)), Gather(s.handled, By(g)), Pending(s.state, g), if g == h then [value] else []);
      NothingMore(Gather(s.handled, By(g)));
      NothingMore(Pending(s.state, g));
    case Turn(o) =>
      TurnMoves(x, s, o, g);
      hide Gather, Of, By, Step, Pending, Taken, Running, Fatal;
      Moved(Gather(s.handled, By(g)), Taken(s.state.queues[o][0], g), Pending(Step(x, s, e).state, g));
  }

  lemma More<T>(all: seq<T>, a: seq<T>, b: seq<T>, more: seq<T>)
    requires multiset(all) == multiset(a) + multiset(b)
    ensures multiset(all + more) == multiset(a + more) + multiset(b) == multiset(a) + multiset(b + more)
  {}

  lemma Moved<T>(a: seq<T>, taken: seq<T>, b: seq<T>)
    ensures multiset(a) + multiset(taken + b) == multiset(a + taken) + multiset(b)
  {}

  lemma {:induction false} RunConserves(x: Graph, s: System, events: seq<Event>, g: Signal)
    requires LegalRun(x, s, events) && Conserved(s, g) && g in x.queued
    ensures Conserved(Run(x, s, events), g)
    decreases |events|
  {
    hide Step, Legal, Conserved;
    if events != [] {
      StepConserves(x, s, events[0], g);
      RunConserves(x, Step(x, s, events[0]), events[1..], g);
    }
  }

  /** In the run, no emission of `g` carried out at once overtakes a different one waiting. */
  ghost predicate Orderly(x: Graph, s: System, events: seq<Event>, g: Signal)
    requires LegalRun(x, s, events)
    decreases |events|
  {
    events == [] || (
      && (events[0].Emit? && events[0].signal == g && AtOnce(g, events[0].caller)
          ==> AllAre(Pending(s.state, g), events[0].value))
      && Orderly(x, Step(x, s, events[0]), events[1..], g))
  }

  /** The order holds at the start and after every event. */
  ghost predicate AlwaysInOrder(x: Graph, s: System, events: seq<Event>, g: Signal)
    requires LegalRun(x, s, events)
    decreases |events|
  {
    InOrder(s, g) && (events == [] || AlwaysInOrder(x, Step(x, s, events[0]), events[1..], g))
  }

  /** From a state in order, the order holds after every event if and only if the run is orderly. */
  lemma {:induction false} OrderlyIff(x: Graph, s: System, events: seq<Event>, g: Signal)
    requires LegalRun(x, s, events) && InOrder(s, g) && g in x.queued
    ensures AlwaysInOrder(x, s, events, g) <==> Orderly(x, s, events, g)
    decreases |events|
  {
    hide InOrder, Step, Legal, Pending, AtOnce, AllAre;
    if events != [] {
      StepInOrderIff(x, s, events[0], g);
      var s' := Step(x, s, events[0]);
      if InOrder(s', g) { OrderlyIff(x, s', events[1..], g); } else { NotInOrder(x, s', events[1..], g); }
    }
  }

  lemma StepInOrderIff(x: Graph, s: System, e: Event, g: Signal)
    requires Legal(x, s, e) && InOrder(s, g) && g in x.queued
    ensures InOrder(Step(x, s, e), g)
       <==> (e.Emit? && e.signal == g && AtOnce(g, e.caller) ==> AllAre(Pending(s.state, g), e.value))
  {
    hide InOrder, Step, Pending, AtOnce, AllAre;
    match e
    case Emit(h, value, caller) =>
      if h == g {
        EmitInOrderIff(x, s, g, value, caller);
      } else {
        OtherEmitKeepsOrder(x, s, h, value, caller, g);
      }
    case Turn(o) => TurnKeepsOrder(x, s, o, g);
  }

  lemma NotInOrder(x: Graph, s: System, events: seq<Event>, g: Signal)
    requires LegalRun(x, s, events) && !InOrder(s, g)
    ensures !AlwaysInOrder(x, s, events, g)
  {}

  lemma {:induction false} EndsInOrder(x: Graph, s: System, events: seq<Event>, g: Signal)
    requires LegalRun(x, s, events) && AlwaysInOrder(x, s, events, g)
    ensures InOrder(Run(x, s, events), g)
    decreases |events|
  {
    hide InOrder, Step, Legal;
    if events != [] { EndsInOrder(x, Step(x, s, events[0]), events[1..], g); }
  }

  // ---- main results

  /**
    Queued delivery is exact: in every run, at every queue, the calls made from it followed by the
    calls waiting in it are, in order, the queued calls of the emissions handled so far.
   */
  lemma QueuedDeliveryExact(x: Graph, threads: set<ThreadedObject>, events: seq<Event>, o: ThreadedObject)
    requires Wired(x, threads) && LegalRun(x, Idle(threads), events) && o in threads
    ensures var s := Run(x, Idle(threads), events);
            && o in s.state.queues
            && Gather(s.state.calls, From(o)) + Gather(s.state.queues[o], Waiting()) == Gather(s.handled, CallsAt(x, o))
  {
    IdleInv(x, threads);
    RunKeeps(x, Idle(threads), events);
    RunFixesThreads(x, Idle(threads), events);
  }

  lemma {:induction false} RunFixesThreads(x: Graph, s: System, events: seq<Event>)
    requires Inv(x, s) && LegalRun(x, s, events)
    ensures Run(x, s, events).state.queues.Keys == s.state.queues.Keys
    decreases |events|
  {
    if events != [] {
      StepKeeps(x, s, events[0]);
      StepFixesThreads(x, s, events[0]);
      hide Inv, Step, Legal;
      RunFixesThreads(x, Step(x, s, events[0]), events[1..]);
    }
  }

  lemma StepFixesThreads(x: Graph, s: System, e: Event)
    requires Legal(x, s, e)
    ensures Step(x, s, e).state.queues.Keys == s.state.queues.Keys
  {
    if e.Turn? {
      var task := s.state.queues[e.thread][0];
      assert task in s.state.queues[e.thread];
    }
  }

  /** Every emission handled made its direct calls, in order, on the thread of its signal. */
  lemma DirectCallsExact(x: Graph, threads: set<ThreadedObject>, events: seq<Event>)
    requires Wired(x, threads) && LegalRun(x, Idle(threads), events)
    ensures var s := Run(x, Idle(threads), events);
            && Gather(s.state.calls, Directly()) == Gather(s.handled, CallsOf(x))
            && forall h | h in s.handled :: h.signal.parent.Threaded? ==> h.thread == h.signal.parent.root.threadId
  {
    IdleInv(x, threads);
    RunKeeps(x, Idle(threads), events);
  }

  /**
    Over every run, each emission of a signal was handled or waits, as often as it was made. In an
    orderly run they are handled in the order made, the rest waiting in that order.
   */
  lemma EmissionsInOrder(x: Graph, threads: set<ThreadedObject>, events: seq<Event>, g: Signal)
    requires Wired(x, threads) && LegalRun(x, Idle(threads), events) && g in x.queued
    ensures var s := Run(x, Idle(threads), events);
            && multiset(Gather(s.emitted, Of(g))) == multiset(Gather(s.handled, By(g))) + multiset(Pending(s.state, g))
            && (Orderly(x, Idle(threads), events, g) ==>
                  Gather(s.emitted, Of(g)) == Gather(s.handled, By(g)) + Pending(s.state, g))
  {
    RunConserves(x, Idle(threads), events, g);
    OrderlyIff(x, Idle(threads), events, g);
    if Orderly(x, Idle(threads), events, g) { EndsInOrder(x, Idle(threads), events, g); }
    hide Run, LegalRun, Wired, Gather, Idle, Orderly, AlwaysInOrder;
  }

  /** A signal never emitted on its own thread is emitted in order. */
  lemma {:induction false} ForeignIsOrderly(x: Graph, s: System, events: seq<Event>, g: Signal)
    requires LegalRun(x, s, events)
    requires forall i | 0 <= i < |events| :: events[i].Emit? && events[i].signal == g ==> !AtOnce(g, events[i].caller)
    ensures Orderly(x, s, events, g)
    decreases |events|
  {
    hide Step, Legal, Pending;
    if events != [] {
      assert forall i | 0 <= i < |events[1..]| :: events[1..][i] == events[i + 1];
      ForeignIsOrderly(x, Step(x, s, events[0]), events[1..], g);
    }
  }

  // ---- per slot

  function Repeat<T>(v: T, n: nat): seq<T> {
    if n == 0 then [] else [v] + Repeat(v, n - 1)
  }

  /** How often an emission of `g` queues a call of `t`: once per connection, up to one that throws. */
  function Times(x: Graph, g: Signal, t: Slot): nat {
    if g in x.queued then multiset(Served(x.queued[g]))[t] else 0
  }

  /** What one handled emission calls `t` with. */
  function For(x: Graph, t: Slot): Handling -> seq<Value> {
    (h: Handling) => Repeat(h.value, Times(x, h.signal, t))
  }

  /** Every value as often as `m` says. */
  function Each(m: nat): Value -> seq<Value> {
    (v: Value) => Repeat(v, m)
  }

  lemma {:induction false} SameCounts(slots: seq<Slot>, t: Slot, value: Value)
    ensures Gather(slots, Same(t, value)) == Repeat(value, multiset(slots)[t])
  {
    hide *;
    if slots == [] {
      GatherNone(Same(t, value));
      RepeatNone(value);
    } else {
      SameCounts(slots[1..], t, value);
      Lists.Uncons(slots);
      GatherFirst(slots, Same(t, value));
      SameIs(slots[0], t, value);
      RepeatFirst(value, multiset(slots[1..])[t] + 1);
      Nothing(Gather(slots[1..], Same(t, value)));
    }
  }

  lemma SameIs(u: Slot, t: Slot, value: Value)
    ensures Same(t, value)(u) == if u == t then [value] else []
  {}

  lemma RepeatFirst<T>(v: T, n: nat)
    requires n > 0
    ensures Repeat(v, n) == [v] + Repeat(v, n - 1)
  {}

  lemma OneHandling(x: Graph, t: Slot, o: ThreadedObject, h: Handling)
    requires t.parent == Threaded(o)
    ensures Gather(CallsAt(x, o)(h), ValueFor(t)) == For(x, t)(h)
  {
    if h.signal in x.queued {
      ServedFor(Served(x.queued[h.signal]), t, o, h.value);
    }
  }

  lemma ServedFor(slots: seq<Slot>, t: Slot, o: ThreadedObject, value: Value)
    requires t.parent == Threaded(o)
    ensures Gather(Gather(slots, To(o, value)), ValueFor(t)) == Repeat(value, multiset(slots)[t])
  {
    forall u | u in slots ensures Gather(To(o, value)(u), ValueFor(t)) == Same(t, value)(u) {
      if u.parent == Threaded(o) {
        GatherFirst([Delivery(u, value)], ValueFor(t));
      }
    }
    GatherTwice(slots, To(o, value), ValueFor(t), Same(t, value));
    SameCounts(slots, t, value);
  }

  lemma MadeFor(calls: seq<Invocation>, t: Slot, o: ThreadedObject)
    requires t.parent == Threaded(o)
    ensures Gather(Gather(calls, From(o)), ValueFor(t)) == Gather(calls, At(t))
  {
    forall c | c in calls ensures Gather(From(o)(c), ValueFor(t)) == At(t)(c) {
      if c.queued && c.slot.parent == Threaded(o) {
        GatherFirst([Delivery(c.slot, c.value)], ValueFor(t));
      }
    }
    GatherTwice(calls, From(o), ValueFor(t), At(t));
  }

  lemma DueFor(q: seq<Task>, t: Slot)
    ensures Gather(Gather(q, Waiting()), ValueFor(t)) == Gather(q, DueAt(t))
  {
    forall task | task in q ensures Gather(Waiting()(task), ValueFor(t)) == DueAt(t)(task) {
      if task.Deliver? {
        GatherFirst([Delivery(task.slot, task.value)], ValueFor(t));
      }
    }
    GatherTwice(q, Waiting(), ValueFor(t), DueAt(t));
  }

  /**
    For every slot with a thread, over any number of signals and connections: the values it was
    called with from its queue, then those queued for it, are those of the emissions handled, in
    order, each as often as its signal has queued connections with the slot.
   */
  lemma SlotSequence(x: Graph, threads: set<ThreadedObject>, events: seq<Event>, t: Slot, o: ThreadedObject)
    requires Wired(x, threads) && LegalRun(x, Idle(threads), events) && t.parent == Threaded(o) && o in threads
    ensures var s := Run(x, Idle(threads), events);
            && o in s.state.queues
            && Gather(s.state.calls, At(t)) + Gather(s.state.queues[o], DueAt(t)) == Gather(s.handled, For(x, t))
  {
    var s := Run(x, Idle(threads), events);
    QueuedDeliveryExact(x, threads, events, o);
    hide Run, LegalRun, Wired, Gather, Idle;
    forall h | h in s.handled ensures Gather(CallsAt(x, o)(h), ValueFor(t)) == For(x, t)(h) {
      OneHandling(x, t, o, h);
    }
    GatherTwice(s.handled, CallsAt(x, o), ValueFor(t), For(x, t));
    MadeFor(s.state.calls, t, o);
    DueFor(s.state.queues[o], t);
    GatherSum(Gather(s.state.calls, From(o)), Gather(s.state.queues[o], Waiting()), ValueFor(t));
  }

  /** Only `g` has queued connections with `t`. */
  ghost predicate OnlyQueuedBy(x: Graph, g: Signal, t: Slot) {
    forall h | h in x.queued && h != g :: t !in x.queued[h]
  }

  lemma {:induction false} NotServed(slots: seq<Slot>, t: Slot)
    requires t !in slots
    ensures multiset(Served(slots))[t] == 0
  {
    if slots != [] {
      assert slots[0] in slots;
      NotServed(slots[1..], t);
    }
  }

  lemma RepeatNone<T>(v: T)
    ensures Repeat(v, 0) == []
  {}

  lemma OnlyBy(x: Graph, g: Signal, t: Slot, h: Handling)
    requires OnlyQueuedBy(x, g, t)
    ensures Gather(By(g)(h), Each(Times(x, g, t))) == For(x, t)(h)
  {
    if h.signal == g {
      GatherFirst([h.value], Each(Times(x, g, t)));
    } else if h.signal in x.queued {
      NotServed(x.queued[h.signal], t);
    }
  }

  lemma {:induction false} EachCounts(s: seq<Value>, m: nat, v: Value)
    ensures multiset(Gather(s, Each(m)))[v] == m * multiset(s)[v]
  {
    hide *;
    if s == [] {
      GatherNone(Each(m));
    } else {
      EachCounts(s[1..], m, v);
      RepeatCounts(s[0], m, v);
      GatherFirst(s, Each(m));
      EachIs(s[0], m);
      Lists.Uncons(s);
      OneMoreTime(m, multiset(s[1..])[v]);
    }
  }

  lemma EachIs(v: Value, m: nat)
    ensures Each(m)(v) == Repeat(v, m)
  {}

  lemma OneMoreTime(m: nat, k: nat)
    ensures m * (k + 1) == m + m * k
  {}

  lemma {:induction false} RepeatCounts(w: Value, m: nat, v: Value)
    ensures multiset(Repeat(w, m))[v] == if v == w then m else 0
  {
    if m > 0 { RepeatCounts(w, m - 1, v); }
  }

  /** Repeating each value of the same values, in whatever order, gives the same values. */
  lemma EachAlike(a: seq<Value>, b: seq<Value>, m: nat)
    requires multiset(a) == multiset(b)
    ensures multiset(Gather(a, Each(m))) == multiset(Gather(b, Each(m)))
  {
    forall v: Value ensures multiset(Gather(a, Each(m)))[v] == multiset(Gather(b, Each(m)))[v] {
      EachCounts(a, m, v);
      EachCounts(b, m, v);
    }
    hide Gather;
  }

  /** What `t` was called with or is queued for it, then what the emissions still waiting mean for it. */
  ghost function Received(s: System, g: Signal, t: Slot, o: ThreadedObject, m: nat): seq<Value>
    requires o in s.state.queues
  {
    Gather(s.state.calls, At(t)) + Gather(s.state.queues[o], DueAt(t)) + Gather(Pending(s.state, g), Each(m))
  }

  lemma ReceivedIs(x: Graph, threads: set<ThreadedObject>, events: seq<Event>, g: Signal, t: Slot, o: ThreadedObject)
    requires Wired(x, threads) && LegalRun(x, Idle(threads), events) && g in x.queued
    requires OnlyQueuedBy(x, g, t) && t.parent == Threaded(o) && o in threads
    ensures var s := Run(x, Idle(threads), events);
            && o in s.state.queues
            && Received(s, g, t, o, Times(x, g, t))
                  == Gather(Gather(s.handled, By(g)) + Pending(s.state, g), Each(Times(x, g, t)))
  {
    var s := Run(x, Idle(threads), events);
    SlotSequence(x, threads, events, t, o);
    hide Run, LegalRun, Wired, Gather, OnlyQueuedBy, Idle, Times;
    forall h | h in s.handled ensures Gather(By(g)(h), Each(Times(x, g, t))) == For(x, t)(h) {
      OnlyBy(x, g, t, h);
    }
    GatherTwice(s.handled, By(g), Each(Times(x, g, t)), For(x, t));
    GatherSum(Gather(s.handled, By(g)), Pending(s.state, g), Each(Times(x, g, t)));
  }

  /**
    End to end: where only `g` has queued connections with a slot, however many, over every run: the
    values the slot was called with, those queued for it and those of emissions still queued at the
    signal's owner are the values emitted, each once per connection: none lost, none doubled. In an
    orderly run they are so in order: none overtaken.
   */
  lemma EndToEnd(x: Graph, threads: set<ThreadedObject>, events: seq<Event>, g: Signal, t: Slot, o: ThreadedObject)
    requires Wired(x, threads) && LegalRun(x, Idle(threads), events) && g in x.queued
    requires OnlyQueuedBy(x, g, t) && t.parent == Threaded(o) && o in threads
    ensures var s := Run(x, Idle(threads), events);
            var m := Times(x, g, t);
            && o in s.state.queues
            && multiset(Received(s, g, t, o, m)) == multiset(Gather(Gather(s.emitted, Of(g)), Each(m)))
            && (Orderly(x, Idle(threads), events, g) ==>
                  Received(s, g, t, o, m) == Gather(Gather(s.emitted, Of(g)), Each(m)))
  {
    var s := Run(x, Idle(threads), events);
    ReceivedIs(x, threads, events, g, t, o);
    EmissionsInOrder(x, threads, events, g);
    hide *;
    EachAlike(Gather(s.handled, By(g)) + Pending(s.state, g), Gather(s.emitted, Of(g)), Times(x, g, t));
  }

  lemma {:induction false} EachOnce(s: seq<Value>)
    ensures Gather(s, Each(1)) == s
  {
    if s != [] {
      EachOnce(s[1..]);
      RepeatNone(s[0]);
      assert Each(1)(s[0]) == [s[0]];
    }
  }

  /** End to end over one connection of a signal that has no slot that throws: each value once. */
  lemma EndToEndOnce(x: Graph, threads: set<ThreadedObject>, events: seq<Event>, g: Signal, t: Slot, o: ThreadedObject)
    requires Wired(x, threads) && LegalRun(x, Idle(threads), events) && g in x.queued
    requires OnlyQueuedBy(x, g, t) && t.parent == Threaded(o) && o in threads
    requires multiset(x.queued[g])[t] == 1 && !Throws(x, g)
    ensures var s := Run(x, Idle(threads), events);
            && o in s.state.queues
            && (var called, due := Gather(s.state.calls, At(t)), Gather(s.state.queues[o], DueAt(t));
                var received := called + due + Pending(s.state, g);
                && multiset(received) == multiset(Gather(s.emitted, Of(g)))
                && (Orderly(x, Idle(threads), events, g) ==> received == Gather(s.emitted, Of(g))))
  {
    AllServed(x.queued[g]);
    assert Times(x, g, t) == 1;
    EndToEnd(x, threads, events, g, t, o);
    var s := Run(x, Idle(threads), events);
    assert Received(s, g, t, o, 1)
        == Gather(s.state.calls, At(t)) + Gather(s.state.queues[o], DueAt(t)) + Gather(Pending(s.state, g), Each(1));
    hide *;
    EachOnce(Pending(s.state, g));
    EachOnce(Gather(s.emitted, Of(g)));
  }

  // ---- real objects

  /** The objects are connected as `x` says. */
  ghost predicate Connected(x: Graph)
    reads x.queued.Keys`direct, x.queued.Keys`queued
  {
    x.direct.Keys == x.queued.Keys && forall g | g in x.queued :: g.direct == x.direct[g] && g.queued == x.queued[g]
  }

  /**
    One emission or loop turn does to the objects what the step does to the values; it throws if the
    emission comes to such a slot.
   */
  method Perform(e: Event, log: CallLog, ghost x: Graph, ghost s: System, ghost threads: set<ThreadedObject>)
      returns (threw: bool)
    requires Inv(x, s) && Legal(x, s, e) && Connected(x) && State(Queues(threads), log.calls) == s.state
    modifies log, threads
    ensures State(Queues(threads), log.calls) == Step(x, s, e).state && Connected(x)
    ensures threw <==> e.Emit? && AtOnce(e.signal, e.caller) && Throws(x, e.signal)
  {
    hide *;
    match e {
      case Emit(g, value, caller) =>
        EmitIs(x, s, g, value, caller);
        threw := g.Emit(value, caller, log, threads);
      case Turn(o) =>
        TurnIs(x, s, o, threads);
        threw := o.Turn(log, threads);
    }
  }

  lemma EmitIs(x: Graph, s: System, g: Signal, value: Value, caller: ThreadId)
    requires Inv(x, s) && Legal(x, s, Emit(g, value, caller)) && Connected(x)
    ensures Rooted(g.queued, s.state.queues.Keys) && (g.parent.Threaded? ==> g.parent.root in s.state.queues)
    ensures Emitted(s.state, g, g.direct, g.queued, value, caller)
         == Effect(Step(x, s, Emit(g, value, caller)).state, AtOnce(g, caller) && Throws(x, g))
  {
    EmitKeeps(x, s, g, value, caller);
    ConnectedAt(x, g);
    hide Connected, Emitted, Inv;
  }

  lemma TurnIs(x: Graph, s: System, o: ThreadedObject, threads: set<ThreadedObject>)
    requires Inv(x, s) && Legal(x, s, Turn(o)) && Connected(x) && Queues(threads) == s.state.queues
    ensures o in threads && o.eventList != [] && Rooted(FrontQueued(o.eventList[0]), threads)
    ensures Turned(s.state, o, FrontDirect(o.eventList[0]), FrontQueued(o.eventList[0]))
         == Effect(Step(x, s, Turn(o)).state, false)
  {
    QueuesAt(threads, o);
    var task := o.eventList[0];
    assert task in s.state.queues[o];
    if task.EmitLater? {
      HandledRuns(x, s.state, task.signal, task.value, o.threadId);
      ConnectedAt(x, task.signal);
    }
    hide Connected, Inv, Handled, Queues;
  }

  lemma ConnectedAt(x: Graph, g: Signal)
    requires Connected(x) && g in x.queued
    ensures g.direct == x.direct[g] && g.queued == x.queued[g]
  {}

  lemma IdleIs(x: Graph, threads: set<ThreadedObject>)
    requires Wired(x, threads) && forall o | o in threads :: o.eventList == []
    ensures Inv(x, Idle(threads)) && State(Queues(threads), []) == Idle(threads).state
  {
    IdleInv(x, threads);
  }

  lemma NextEvent(x: Graph, s: System, events: seq<Event>, i: nat)
    requires i < |events| && LegalRun(x, s, events[i..])
    ensures Legal(x, s, events[i]) && LegalRun(x, Step(x, s, events[i]), events[i + 1..])
    ensures Run(x, s, events[i..]) == Run(x, Step(x, s, events[i]), events[i + 1..])
  {
    assert events[i..][0] == events[i] && events[i..][1..] == events[i + 1..];
    hide Legal, Step;
  }

  lemma RunEnds(x: Graph, s: System, events: seq<Event>)
    ensures LegalRun(x, s, events[|events|..]) && Run(x, s, events[|events|..]) == s
  {}

  /** Idle objects driven by any legal events end in the state of the run, so the results above hold of them. */
  method Drive(log: CallLog, events: seq<Event>, ghost x: Graph, ghost threads: set<ThreadedObject>)
    requires Wired(x, threads) && LegalRun(x, Idle(threads), events) && Connected(x)
    requires log.calls == [] && forall o | o in threads :: o.eventList == []
    modifies log, threads
    ensures State(Queues(threads), log.calls) == Run(x, Idle(threads), events).state
  {
    hide *;
    ghost var now := Idle(threads);
    IdleIs(x, threads);
    assert events[0..] == events;
    var i := 0;
    while i < |events|
      invariant 0 <= i <= |events|
      invariant Inv(x, now) && Connected(x) && State(Queues(threads), log.calls) == now.state
      invariant LegalRun(x, now, events[i..]) && Run(x, now, events[i..]) == Run(x, Idle(threads), events)
    {
      NextEvent(x, now, events, i);
      StepKeeps(x, now, events[i]);
      var _ := Perform(events[i], log, x, now, threads);
      now := Step(x, now, events[i]);
      i := i + 1;
    }
    RunEnds(x, now, events);
  }
}
