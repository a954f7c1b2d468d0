/**
  Signals and slots that runs of connecting made, then emitted on: on which thread slots are called,
  how an emission can overtake or throw, and what queues still hold of a destroyed object.
 */
module Wiring {
  import opened SignalSlot
  import opened EventLoop
  import opened EmissionOrder
  import Runs = SignalSlotRuns

  /** The threads that belong to live objects. */
  ghost predicate Covered(x: Graph, threads: set<ThreadedObject>) {
    && (forall g | g in x.queued :: g.parent.Threaded? ==> g.parent.root in threads)
    && (forall t | t in x.connected :: t.parent.Threaded? ==> t.parent.root in threads)
  }

  /** What any run of making, connecting and destroying leads to can be emitted on. */
  lemma BuiltIsWired(building: seq<Runs.Event>, threads: set<ThreadedObject>)
    requires Runs.LegalRun(Runs.EMPTY, building) && Covered(Runs.Run(Runs.EMPTY, building), threads)
    ensures Wired(Runs.Run(Runs.EMPTY, building), threads)
  {
    Runs.RunKeeps(Runs.EMPTY, building);
    hide Runs.Run, Runs.LegalRun, Agreed;
  }

  // ---- on which thread a slot is called

  /** A slot with a thread has direct connections only with signals of the same thread. */
  ghost predicate OwnThread(x: Graph) {
    forall g | g in x.direct :: forall t | t in x.direct[g] :: SameThread(g.parent, t.parent)
  }

  ghost predicate SameThread(signal: Parent, slot: Parent) {
    slot.Threaded? ==> signal.Threaded? && signal.root.threadId == slot.root.threadId
  }

  /** The call was made on the thread of its slot, if that has one. */
  ghost predicate AtHome(call: Invocation) {
    call.slot.parent.Threaded? ==> call.thread == call.slot.parent.root.threadId
  }

  ghost predicate AllAtHome(calls: seq<Invocation>) {
    forall call | call in calls :: AtHome(call)
  }

  lemma DirectAtHome(x: Graph, g: Signal, value: Value, thread: ThreadId)
    requires OwnThread(x) && g in x.direct && (g.parent.Threaded? ==> thread == g.parent.root.threadId)
    ensures AllAtHome(Calls(thread, x.direct[g], value))
  {
    assert forall i | 0 <= i < |x.direct[g]| :: x.direct[g][i] in x.direct[g];
  }

  lemma JoinAtHome(a: seq<Invocation>, b: seq<Invocation>)
    ensures AllAtHome(a + b) <==> AllAtHome(a) && AllAtHome(b)
  {
    assert forall call :: call in a + b <==> call in a || call in b;
  }

  /** The calls one event adds. */
  lemma StepCalls(x: Graph, s: System, e: Event)
    requires Legal(x, s, e)
    ensures var calls := Step(x, s, e).state.calls;
            match e
            case Emit(g, value, caller) =>
              calls == s.state.calls + (if AtOnce(g, caller) then Calls(caller, x.direct[g], value) else [])
            case Turn(o) =>
              match s.state.queues[o][0]
              case Deliver(t, value) => t.parent == Threaded(o)
                  && calls == s.state.calls + [Invocation(o.threadId, t, value, true)]
              case EmitLater(g, value) =>
                g in x.direct && g.parent == Threaded(o)
                    && calls == s.state.calls + Calls(o.threadId, x.direct[g], value)
  {
    match e
    case Emit(g, value, caller) => AtOnceIsHandled(x, s.state, g, value, caller);
    case Turn(o) => assert s.state.queues[o][0] in s.state.queues[o];
  }

  lemma StepAtHome(x: Graph, s: System, e: Event)
    requires Legal(x, s, e) && OwnThread(x) && AllAtHome(s.state.calls)
    ensures AllAtHome(Step(x, s, e).state.calls)
  {
    StepCalls(x, s, e);
    hide Step, OwnThread, Running, Throws;
    match e
    case Emit(g, value, caller) =>
      if AtOnce(g, caller) {
        DirectAtHome(x, g, value, caller);
        JoinAtHome(s.state.calls, Calls(caller, x.direct[g], value));
      }
    case Turn(o) =>
      match s.state.queues[o][0]
      case Deliver(t, value) => JoinAtHome(s.state.calls, [Invocation(o.threadId, t, value, true)]);
      case EmitLater(g, value) =>
        DirectAtHome(x, g, value, o.threadId);
        JoinAtHome(s.state.calls, Calls(o.threadId, x.direct[g], value));
  }

  lemma {:induction false} RunAtHome(x: Graph, s: System, events: seq<Event>)
    requires LegalRun(x, s, events) && OwnThread(x) && AllAtHome(s.state.calls)
    ensures AllAtHome(Run(x, s, events).state.calls)
    decreases |events|
  {
    hide Step, Legal, OwnThread, AllAtHome;
    if events != [] {
      StepAtHome(x, s, events[0]);
      RunAtHome(x, Step(x, s, events[0]), events[1..]);
    }
  }

  lemma OneEmission(x: Graph, threads: set<ThreadedObject>, g: Signal, value: Value, caller: ThreadId)
    requires Wired(x, threads) && g in x.queued && AtOnce(g, caller)
    ensures LegalRun(x, Idle(threads), [Emit(g, value, caller)])
    ensures Run(x, Idle(threads), [Emit(g, value, caller)]).state.calls == Calls(caller, x.direct[g], value)
  {
    var e := Emit(g, value, caller);
    assert Legal(x, Idle(threads), e);
    StepCalls(x, Idle(threads), e);
    hide Legal, Step, Wired;
    assert [e][1..] == [];
    assert LegalRun(x, Step(x, Idle(threads), e), []);
    assert Run(x, Step(x, Idle(threads), e), []) == Step(x, Idle(threads), e);
  }

  /**
    Slots with a thread are called on that thread in every run of emissions and loop turns if and
    only if they have direct connections only with signals of the same thread.
   */
  lemma CalledOnOwnThreadIff(x: Graph, threads: set<ThreadedObject>)
    requires Wired(x, threads)
    ensures OwnThread(x)
       <==> forall events | LegalRun(x, Idle(threads), events) :: AllAtHome(Run(x, Idle(threads), events).state.calls)
  {
    hide *;
    if OwnThread(x) {
      IdleCalls(threads);
      forall events | LegalRun(x, Idle(threads), events) ensures AllAtHome(Run(x, Idle(threads), events).state.calls) {
        RunAtHome(x, Idle(threads), events);
      }
    } else {
      var events := Stray(x, threads);
    }
  }

  /** One emission that calls a slot on another thread than its own. */
  lemma Stray(x: Graph, threads: set<ThreadedObject>) returns (events: seq<Event>)
    requires Wired(x, threads) && !OwnThread(x)
    ensures LegalRun(x, Idle(threads), events) && !AllAtHome(Run(x, Idle(threads), events).state.calls)
  {
    var g, i := ForeignEntry(x);
    var t := x.direct[g][i];
    var caller := if g.parent.Threaded? then g.parent.root.threadId else t.parent.root.threadId + 1;
    events := [Emit(g, 0, caller)];
    hide Run, LegalRun, Idle, OwnThread;
    OneEmission(x, threads, g, 0, caller);
    assert Calls(caller, x.direct[g], 0)[i] == Invocation(caller, t, 0, false);
    assert !AtHome(Invocation(caller, t, 0, false));
  }

  lemma IdleCalls(threads: set<ThreadedObject>)
    ensures AllAtHome(Idle(threads).state.calls)
  {}

  lemma ForeignEntry(x: Graph) returns (g: Signal, i: nat)
    requires !OwnThread(x)
    ensures g in x.direct && i < |x.direct[g]| && !SameThread(g.parent, x.direct[g][i].parent)
  {
    g :| g in x.direct && exists t :: t in x.direct[g] && !SameThread(g.parent, t.parent);
    i :| 0 <= i < |x.direct[g]| && !SameThread(g.parent, x.direct[g][i].parent);
  }

  /** A slot called from a queue is called on its own thread, whatever its connections. */
  lemma {:induction false} QueuedAtHome(x: Graph, s: System, events: seq<Event>)
    requires LegalRun(x, s, events) && forall call | call in s.state.calls && call.queued ::
           call.slot.parent.Threaded? && AtHome(call)
    ensures forall call | call in Run(x, s, events).state.calls && call.queued ::
           call.slot.parent.Threaded? && AtHome(call)
    decreases |events|
  {
    if events != [] {
      StepCalls(x, s, events[0]);
      hide Step, Legal;
      QueuedAtHome(x, Step(x, s, events[0]), events[1..]);
    }
  }

  // ---- connections that keep to the slot's thread

  /** Asked for so that the slot is called on its own thread: not directly from another one. */
  ghost predicate Homely(e: Runs.Event) {
    e.Connect? && e.slot.parent.Threaded? ==>
      e.signal.parent.Threaded? && (e.kind == Direct ==> e.signal.parent.root.threadId == e.slot.parent.root.threadId)
  }

  lemma WithinHome(x: Graph, y: Graph)
    requires OwnThread(x) && Runs.Within(y.direct, x.direct)
    ensures OwnThread(y)
  {
    forall g, t | g in y.direct && t in y.direct[g] ensures SameThread(g.parent, t.parent) {
      Runs.Members(y.direct, x.direct, g, t);
    }
  }

  lemma BuildingStep(x: Graph, e: Runs.Event)
    requires Consistent(x) && OwnThread(x) && Runs.Legal(x, e) && Homely(e)
    ensures OwnThread(Runs.Step(x, e))
  {
    match e
    case MakeSignal(_) =>
    case MakeSlot(_) =>
    case Connect(_, _, _, _) =>
    case DisconnectAll(g) => ShrunkHome(x, e);
    case Disconnect(g, t) => ShrunkHome(x, e);
    case DestroySignal(g) => ShrunkHome(x, e);
    case DestroySlot(t) => ShrunkHome(x, e);
  }

  lemma ShrunkHome(x: Graph, e: Runs.Event)
    requires Consistent(x) && OwnThread(x) && Runs.Legal(x, e) && !e.MakeSignal? && !e.MakeSlot? && !e.Connect?
    ensures OwnThread(Runs.Step(x, e))
  {
    hide OwnThread, Runs.Within, Unlinked, UnlinkedOnce, WithoutSignal, WithoutSlot;
    match e {
      case DisconnectAll(g) => Runs.SignalShrinks(x, g);
      case Disconnect(g, t) => Runs.OnceShrinks(x, g, t);
      case DestroySignal(g) => Runs.SignalShrinks(x, g);
      case DestroySlot(t) => Runs.SlotShrinks(x, t);
    }
    WithinHome(x, Runs.Step(x, e));
  }

  lemma {:induction false} BuildingRun(x: Graph, building: seq<Runs.Event>)
    requires Consistent(x) && OwnThread(x) && Runs.LegalRun(x, building)
    requires forall e | e in building :: Homely(e)
    ensures OwnThread(Runs.Run(x, building))
    decreases |building|
  {
    hide Consistent, OwnThread, Runs.Step, Runs.Legal, Homely;
    if building != [] {
      Runs.StepKeeps(x, building[0]);
      assert building[0] in building;
      BuildingStep(x, building[0]);
      BuildingRun(Runs.Step(x, building[0]), building[1..]);
    }
  }

  /**
    Automatic and queued connections between objects with threads, made and destroyed in any order:
    in every run of emissions from any thread, each slot is called on its own thread only.
   */
  lemma AutoStaysHome(building: seq<Runs.Event>, threads: set<ThreadedObject>, events: seq<Event>)
    requires Runs.LegalRun(Runs.EMPTY, building) && Covered(Runs.Run(Runs.EMPTY, building), threads)
    requires forall e | e in building :: Homely(e)
    requires LegalRun(Runs.Run(Runs.EMPTY, building), Idle(threads), events)
    ensures AllAtHome(Run(Runs.Run(Runs.EMPTY, building), Idle(threads), events).state.calls)
  {
    BuildingRun(Runs.EMPTY, building);
    RunAtHome(Runs.Run(Runs.EMPTY, building), Idle(threads), events);
  }

  // ---- failures that can be reached

  /**
    An emission from another thread, then one of a different value on the owner's thread: the second
    is handled, the first still waits.
   */
  lemma Overtakes(g: Signal, o: ThreadedObject, caller: ThreadId, v: Value, w: Value)
    requires g.parent == Threaded(o) && caller != o.threadId && v != w
    ensures Runs.LegalRun(Runs.EMPTY, [Runs.MakeSignal(g)])
    ensures var x := Runs.Run(Runs.EMPTY, [Runs.MakeSignal(g)]);
            var events := [Emit(g, v, caller), Emit(g, w, o.threadId)];
            && Wired(x, {o}) && LegalRun(x, Idle({o}), events)
            && (var s := Run(x, Idle({o}), events);
                && Gather(s.emitted, Of(g)) == [v, w] && Gather(s.handled, By(g)) == [w] && Pending(s.state, g) == [v]
                && !InOrder(s, g))
  {
    MadeOne(g);
    var x := Graph(map[g := []], map[g := []], map[]);
    var first, second := Emit(g, v, caller), Emit(g, w, o.threadId);
    var s := System(State(map[o := [EmitLater(g, v)]], []), [Emission(g, v)], []);
    var s' := s.(emitted := [Emission(g, v), Emission(g, w)], handled := [Handling(g, w, o.threadId)]);
    PostedAlone(x, g, o, caller, v);
    HandledAlone(x, g, o, s, w);
    TwoEvents(x, Idle({o}), first, second);
    hide *;
    One(Emission(g, v), Of(g));
    GatherMore([Emission(g, v)], Emission(g, w), Of(g));
    One(Handling(g, w, o.threadId), By(g));
    One(EmitLater(g, v), Later(g));
    OneIs(g, g, v, o.threadId);
    OneIs(g, g, w, o.threadId);
    Late(s', g, o, v, w);
  }

  lemma Late(s: System, g: Signal, o: ThreadedObject, v: Value, w: Value)
    requires g.parent == Threaded(o) && v != w && s.state.queues == map[o := [EmitLater(g, v)]]
    requires Gather(s.emitted, Of(g)) == [v] + [w] && Gather(s.handled, By(g)) == [w]
           && Gather([EmitLater(g, v)], Later(g)) == [v]
    ensures Gather(s.emitted, Of(g)) == [v, w] && Pending(s.state, g) == [v] && !InOrder(s, g)
  {
    assert ([v] + [w])[0] != ([w] + [v])[0];
  }

  lemma PostedAlone(x: Graph, g: Signal, o: ThreadedObject, caller: ThreadId, v: Value)
    requires x == Graph(map[g := []], map[g := []], map[]) && g.parent == Threaded(o) && caller != o.threadId
    ensures Wired(x, {o}) && Legal(x, Idle({o}), Emit(g, v, caller))
    ensures Step(x, Idle({o}), Emit(g, v, caller))
         == System(State(map[o := [EmitLater(g, v)]], []), [Emission(g, v)], [])
  {
    assert Idle({o}).state.queues == map[o := []];
    assert [] + [EmitLater(g, v)] == [EmitLater(g, v)];
    assert map[o := []][o := [EmitLater(g, v)]] == map[o := [EmitLater(g, v)]];
  }

  lemma HandledAlone(x: Graph, g: Signal, o: ThreadedObject, s: System, w: Value)
    requires x == Graph(map[g := []], map[g := []], map[]) && g.parent == Threaded(o) && Wired(x, {o})
    requires s.state.queues.Keys == {o} && Housed(x, s.state.queues[o], o)
    ensures Legal(x, s, Emit(g, w, o.threadId))
    ensures Step(x, s, Emit(g, w, o.threadId))
         == s.(emitted := s.emitted + [Emission(g, w)], handled := s.handled + [Handling(g, w, o.threadId)])
  {}

  lemma MadeOne(g: Signal)
    ensures Runs.LegalRun(Runs.EMPTY, [Runs.MakeSignal(g)])
    ensures Runs.Run(Runs.EMPTY, [Runs.MakeSignal(g)]) == Graph(map[g := []], map[g := []], map[])
  {
    var e := Runs.MakeSignal(g);
    assert [e][1..] == [];
    assert Runs.LegalRun(Runs.Step(Runs.EMPTY, e), []);
  }

  lemma One<A, B>(a: A, f: A -> seq<B>)
    ensures Gather([a], f) == f(a)
  {
    assert [a][1..] == [];
  }

  lemma TwoEvents(x: Graph, s: System, first: Event, second: Event)
    requires Legal(x, s, first) && Legal(x, Step(x, s, first), second)
    ensures LegalRun(x, s, [first, second]) && Run(x, s, [first, second]) == Step(x, Step(x, s, first), second)
  {
    hide Legal, Step;
    assert [first, second][1..] == [second] && [second][1..] == [];
    var last := Step(x, Step(x, s, first), second);
    assert LegalRun(x, last, []) && Run(x, last, []) == last;
    assert LegalRun(x, Step(x, s, first), [second]) && Run(x, Step(x, s, first), [second]) == last;
  }

  /** A signal with a thread, a slot below a plain root, and an automatic connection asked for on thread `caller`. */
  function Pair(g: Signal, t: Slot, caller: ThreadId): seq<Runs.Event> {
    [Runs.MakeSignal(g), Runs.MakeSlot(t), Runs.Connect(g, t, Auto, caller)]
  }

  /**
    Connecting such a pair from another thread makes every emission on the owner's thread throw, and
    every turn that carries out one end the program; connecting it on the owner's thread does not.
   */
  lemma PairThrowsIff(g: Signal, t: Slot, o: ThreadedObject, caller: ThreadId, value: Value)
    requires g.parent == Threaded(o) && t.parent == Plain
    ensures Runs.LegalRun(Runs.EMPTY, Pair(g, t, caller))
    ensures var x := Runs.Run(Runs.EMPTY, Pair(g, t, caller));
            && Wired(x, {o}) && g in x.queued
            && (caller != o.threadId
                <==> Emitted(Idle({o}).state, g, x.direct[g], x.queued[g], value, o.threadId).threw)
            && (Fatal(x, EmitLater(g, value)) <==> caller != o.threadId)
  {
    PairIs(g, t, caller);
    var x := Runs.Run(Runs.EMPTY, Pair(g, t, caller));
    hide Runs.Run, Runs.LegalRun, SendAll;
    SendAllThrowsIff(Idle({o}).state.queues, x.queued[g], value);
  }

  /** One signal and one slot, with one connection. */
  ghost function Joined(g: Signal, t: Slot, queue: bool): Graph {
    Graph(map[g := if queue then [] else [t]], map[g := if queue then [t] else []], map[t := [g]])
  }

  lemma JoinedIs(g: Signal, t: Slot, queue: bool)
    ensures Linked(Graph(map[g := []], map[g := []], map[t := []]), g, t, queue) == Joined(g, t, queue)
  {
    assert [] + [t] == [t] && [] + [g] == [g];
    assert map[g := []][g := [t]] == map[g := [t]];
    assert map[t := []][t := [g]] == map[t := [g]];
  }

  lemma PairIs(g: Signal, t: Slot, caller: ThreadId)
    ensures Runs.LegalRun(Runs.EMPTY, Pair(g, t, caller))
    ensures Runs.Run(Runs.EMPTY, Pair(g, t, caller))
         == Joined(g, t, Placement(g.parent, t.parent, Auto, caller) == Queued)
  {
    var made, both := Graph(map[g := []], map[g := []], map[]), Graph(map[g := []], map[g := []], map[t := []]);
    var last := Runs.Connect(g, t, Auto, caller);
    assert Runs.Step(Runs.EMPTY, Runs.MakeSignal(g)) == made;
    assert Runs.Step(made, Runs.MakeSlot(t)) == both;
    assert Pair(g, t, caller)[1..] == [Runs.MakeSlot(t), last] && [Runs.MakeSlot(t), last][1..] == [last]
        && [last][1..] == [];
    var end := Runs.Step(both, last);
    JoinedIs(g, t, Placement(g.parent, t.parent, Auto, caller) == Queued);
    assert Runs.LegalRun(end, []) && Runs.Run(end, []) == end;
    assert Runs.LegalRun(both, [last]) && Runs.Run(both, [last]) == end;
    assert Runs.LegalRun(made, [Runs.MakeSlot(t), last]) && Runs.Run(made, [Runs.MakeSlot(t), last]) == end;
  }

  // ---- destroyed objects

  /** A list of the graph or a task of a queue refers to the slot. */
  ghost predicate SlotReferred(x: Graph, queues: map<ThreadedObject, seq<Task>>, t: Slot) {
    || t in x.connected
    || (exists g :: g in x.direct && t in x.direct[g])
    || (exists g :: g in x.queued && t in x.queued[g])
    || (exists o :: o in queues && exists task :: task in queues[o] && task.Deliver? && task.slot == t)
  }

  lemma {:induction false} DueIff(q: seq<Task>, t: Slot)
    ensures Gather(q, DueAt(t)) != [] <==> exists task :: task in q && task.Deliver? && task.slot == t
  {
    if q != [] {
      DueIff(q[1..], t);
      assert forall task :: task in q <==> task == q[0] || task in q[1..];
    }
  }

  /**
    After any run, a destroyed slot stays referred to if and only if it has a thread and has been
    called from its queue less often than the emissions handled say.
   */
  lemma DestroyedSlotReferredIff(x: Graph, threads: set<ThreadedObject>, events: seq<Event>, t: Slot)
    requires Wired(x, threads) && LegalRun(x, Idle(threads), events)
           && (t.parent.Threaded? ==> t.parent.root in threads)
    ensures var s := Run(x, Idle(threads), events);
            && (SlotReferred(WithoutSlot(x, t), s.state.queues, t)
                <==> t.parent.Threaded? && |Gather(s.state.calls, At(t))| < |Gather(s.handled, For(x, t))|)
  {
    var s := Run(x, Idle(threads), events);
    IdleInv(x, threads);
    RunKeeps(x, Idle(threads), events);
    if t.parent.Threaded? {
      SlotSequence(x, threads, events, t, t.parent.root);
      DueIff(s.state.queues[t.parent.root], t);
    }
    hide Run, LegalRun, Wired, Gather, Idle;
    NoEntry(x, t);
    forall p | p in s.state.queues && exists task :: task in s.state.queues[p] && task.Deliver? && task.slot == t
      ensures t.parent == Threaded(p)
    {
      assert Housed(x, s.state.queues[p], p);
    }
  }

  /** A list of the graph or a task of a queue refers to the signal. */
  ghost predicate SignalReferred(x: Graph, queues: map<ThreadedObject, seq<Task>>, g: Signal) {
    || g in x.direct || g in x.queued
    || (exists t :: t in x.connected && g in x.connected[t])
    || (exists o :: o in queues && exists task :: task in queues[o] && task.EmitLater? && task.signal == g)
  }

  lemma {:induction false} LaterIff(q: seq<Task>, g: Signal)
    ensures Gather(q, Later(g)) != [] <==> exists task :: task in q && task.EmitLater? && task.signal == g
  {
    if q != [] {
      LaterIff(q[1..], g);
      assert forall task :: task in q <==> task == q[0] || task in q[1..];
    }
  }

  /**
    After any run, a destroyed signal stays referred to if and only if fewer emissions of it were
    handled than made.
   */
  lemma DestroyedSignalReferredIff(x: Graph, threads: set<ThreadedObject>, events: seq<Event>, g: Signal)
    requires Wired(x, threads) && LegalRun(x, Idle(threads), events) && g in x.queued
    ensures var s := Run(x, Idle(threads), events);
            && (SignalReferred(WithoutSignal(x, g), s.state.queues, g)
                <==> |Gather(s.handled, By(g))| < |Gather(s.emitted, Of(g))|)
  {
    var s := Run(x, Idle(threads), events);
    EmissionsInOrder(x, threads, events, g);
    SameSize(Gather(s.emitted, Of(g)), Gather(s.handled, By(g)), Pending(s.state, g));
    IdleInv(x, threads);
    RunKeeps(x, Idle(threads), events);
    if g.parent.Threaded? {
      LaterIff(s.state.queues[g.parent.root], g);
    }
    hide Run, LegalRun, Gather, Idle;
    NoConnection(x, g);
    forall p | p in s.state.queues && exists task :: task in s.state.queues[p] && task.EmitLater? && task.signal == g
      ensures g.parent == Threaded(p)
    {
      assert Housed(x, s.state.queues[p], p);
    }
  }

  lemma SameSize<T>(all: seq<T>, a: seq<T>, b: seq<T>)
    requires multiset(all) == multiset(a) + multiset(b)
    ensures |all| == |a| + |b|
  {
    assert |multiset(all)| == |all| && |multiset(a) + multiset(b)| == |a| + |b|;
  }

  lemma NoConnection(x: Graph, g: Signal)
    ensures forall t | t in WithoutSignal(x, g).connected :: g !in WithoutSignal(x, g).connected[t]
  {
    Runs.WithoutWithin(x.connected, g);
    var connected := WithoutSignal(x, g).connected;
    forall t | t in connected ensures g !in connected[t] {
      assert g in connected[t] <==> g in multiset(connected[t]);
    }
  }

  lemma NoEntry(x: Graph, t: Slot)
    ensures var y := WithoutSlot(x, t);
            t !in y.connected && (forall g | g in y.direct :: t !in y.direct[g])
                && (forall g | g in y.queued :: t !in y.queued[g])
  {
    Runs.WithoutWithin(x.direct, t);
    Runs.WithoutWithin(x.queued, t);
    var y := WithoutSlot(x, t);
    forall g | g in y.direct ensures t !in y.direct[g] {
      assert t in y.direct[g] <==> t in multiset(y.direct[g]);
    }
    forall g | g in y.queued ensures t !in y.queued[g] {
      assert t in y.queued[g] <==> t in multiset(y.queued[g]);
    }
  }
}
