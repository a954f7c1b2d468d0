/**
  Signals and slots: objects that point at each other, the signals in two lists and the slots in
  one. Methods change the lists in place; each is proved against an operation on the whole graph.
 */
module SignalSlot {
  import opened Lists

  type ThreadId = nat
  type Value = int

  /** What a threaded object's queue holds: the call of one slot, or the emission of a signal. */
  datatype Task = Deliver(slot: Slot, value: Value) | EmitLater(signal: Signal, value: Value)

  /** A slot function run on a thread, by a direct connection or from a queue. */
  datatype Invocation = Invocation(thread: ThreadId, slot: Slot, value: Value, queued: bool)

  /** What slot functions do is left open; that they ran is written down here. */
  class CallLog {
    var calls: seq<Invocation>

    constructor ()
      ensures calls == []
    {
      calls := [];
    }

    method Add(call: Invocation)
      modifies this
      ensures calls == old(calls) + [call]
    {
      calls := calls + [call];
    }
  }

  /** br_threaded_object. */
  class ThreadedObject {
    const threadId: ThreadId
    var eventList: seq<Task>

    constructor (threadId: ThreadId)
      ensures this.threadId == threadId && eventList == []
    {
      this.threadId, eventList := threadId, [];
    }

    method AddEvent(event: Task, ghost threads: set<ThreadedObject>)
      requires this in threads
      modifies this
      ensures Queues(threads) == Push(old(Queues(threads)), this, event)
    {
      eventList := eventList + [event];
    }

    /** One turn of the thread's loop: the event at the front is carried out, then popped. */
    method Turn(log: CallLog, ghost threads: set<ThreadedObject>) returns (threw: bool)
      requires this in threads && eventList != []
      requires Rooted(FrontQueued(eventList[0]), threads)
      modifies log, threads
      ensures Effect(State(Queues(threads), log.calls), threw)
           == Turned(State(old(Queues(threads)), old(log.calls)), this, FrontDirect(old(eventList[0])),
               FrontQueued(old(eventList[0])))
    {
      QueuesAt(threads, this);
      var event := eventList[0];
      match event {
        case Deliver(slot, value) =>
          log.Add(Invocation(threadId, slot, value, true));
        case EmitLater(signal, value) =>
          signal.CallDirectConnections(value, threadId, log);
          threw := signal.CallQueuedConnections(value, threads);
          if threw { return; }
      }
      QueuesAt(threads, this);
      Pop(threads);
      threw := false;
    }

    method Pop(ghost threads: set<ThreadedObject>)
      requires this in threads && eventList != []
      modifies this
      ensures Queues(threads) == old(Queues(threads))[this := old(Queues(threads)[this][1..])]
    {
      eventList := eventList[1..];
    }
  }

  /** A parent, by the root object above it: none, a plain object, or one with a thread of its own. */
  datatype Parent = NoParent | Plain | Threaded(root: ThreadedObject) {
    /** `getThreadId()` of the root, asked for on thread `caller`. */
    function ThreadId(caller: ThreadId): ThreadId {
      if Threaded? then root.threadId else caller
    }
  }

  datatype ConnectionType = Auto | Direct | Queued

  /** How `connect` places a connection asked for as `kind`. */
  function Placement(signal: Parent, slot: Parent, kind: ConnectionType, caller: ThreadId): (placed: ConnectionType)
    ensures placed != Auto
    ensures placed == Direct
       <==> signal.NoParent? || slot.NoParent? || kind == Direct
            || (kind == Auto && signal.ThreadId(caller) == slot.ThreadId(caller))
  {
    if signal.NoParent? || slot.NoParent? then Direct
    else if kind != Auto then kind
    else if signal.ThreadId(caller) == slot.ThreadId(caller) then Direct
    else Queued
  }

  class Slot {
    const parent: Parent
    var connected: seq<Signal>

    constructor (parent: Parent)
      ensures this.parent == parent && connected == []
    {
      this.parent, connected := parent, [];
    }

    method SignalConnected(signal: Signal, ghost slots: set<Slot>)
      requires this in slots
      modifies this
      ensures Connections(slots) == Push(old(Connections(slots)), this, signal)
    {
      connected := connected + [signal];
    }

    method SignalDisconnected(signal: Signal, ghost slots: set<Slot>)
      requires this in slots
      modifies this
      ensures connected == RemoveFirst(old(connected), signal)
      ensures Connections(slots) == Update(old(Connections(slots)), this, signal)
    {
      connected := RemoveFirst(connected, signal);
    }

    method Call(value: Value, thread: ThreadId, log: CallLog)
      modifies log
      ensures log.calls == old(log.calls) + [Invocation(thread, this, value, false)]
    {
      log.Add(Invocation(thread, this, value, false));
    }

    /** Queues the call at the root above the parent; a root without a queue throws, no parent drops it. */
    method AddEventToParent(value: Value, ghost threads: set<ThreadedObject>) returns (threw: bool)
      requires parent.Threaded? ==> parent.root in threads
      modifies threads
      ensures threw == parent.Plain?
      ensures Queues(threads) == if parent.Threaded? then Push(old(Queues(threads)), parent.root, Deliver(this, value))
                                 else old(Queues(threads))
    {
      match parent {
        case NoParent => threw := false;
        case Plain => threw := true;
        case Threaded(root) =>
          root.AddEvent(Deliver(this, value), threads);
          threw := false;
      }
    }

    /** The destructor, among the live objects. */
    method Destroy(ghost signals: set<Signal>, ghost slots: set<Slot>)
      requires this in slots && Consistent(Snapshot(signals, slots))
      modifies connected
      ensures Snapshot(signals, slots - {this}) == WithoutSlot(old(Snapshot(signals, slots)), this)
    {
      hide *;
      ghost var x := Snapshot(signals, slots);
      SnapshotIs(signals, slots);
      ConnectionsAt(slots, this);
      SlotFacts(x, this);
      NoUpdates(x.direct, this);
      NoUpdates(x.queued, this);
      assert connected[..0] == [];
      var i := 0;
      while i < |connected|
        invariant 0 <= i <= |connected|
        invariant Directs(signals) == RemoveEach(x.direct, this, connected[..i])
        invariant Queueds(signals) == RemoveEach(x.queued, this, connected[..i])
      {
        var g := connected[i];
        assert connected[..i + 1] == connected[..i] + [g];
        RemoveEachStep(x.direct, this, connected[..i], g);
        RemoveEachStep(x.queued, this, connected[..i], g);
        g.RemoveSlotConnection(this, signals);
        i := i + 1;
      }
      assert connected[..i] == connected;
      ConnectionsMinus(slots, this);
      SnapshotIs(signals, slots - {this});
    }
  }

  class Signal {
    const parent: Parent
    var direct: seq<Slot>
    var queued: seq<Slot>

    constructor (parent: Parent)
      ensures this.parent == parent && direct == [] && queued == []
    {
      this.parent := parent;
      direct, queued := [], [];
    }

    method Connect(slot: Slot, kind: ConnectionType, caller: ThreadId, ghost signals: set<Signal>,
        ghost slots: set<Slot>)
      requires this in signals && slot in slots
      modifies this, slot
      ensures Snapshot(signals, slots) == Linked(old(Snapshot(signals, slots)), this, slot,
             Placement(parent, slot.parent, kind, caller) == Queued)
    {
      hide *;
      var placed := Place(slot.parent, kind, caller);
      SnapshotIs(signals, slots);
      LinkedIs(Snapshot(signals, slots), this, slot, placed == Queued);
      PushBack(slot, placed, signals);
      slot.SignalConnected(this, slots);
      SnapshotIs(signals, slots);
    }

    method Place(slotParent: Parent, kind: ConnectionType, caller: ThreadId) returns (placed: ConnectionType)
      ensures placed == Placement(parent, slotParent, kind, caller) && placed != Auto
    {
      placed := kind;
      if parent.NoParent? || slotParent.NoParent? {
        placed := Direct;
      } else if kind == Auto {
        if parent.ThreadId(caller) == slotParent.ThreadId(caller) {
          placed := Direct;
        } else {
          placed := Queued;
        }
      }
    }

    method PushBack(slot: Slot, placed: ConnectionType, ghost signals: set<Signal>)
      requires this in signals && placed != Auto
      modifies `direct, `queued
      ensures Directs(signals) == if placed == Direct then Push(old(Directs(signals)), this, slot)
                                  else old(Directs(signals))
      ensures Queueds(signals) == if placed == Direct then old(Queueds(signals))
                                  else Push(old(Queueds(signals)), this, slot)
    {
      if placed == Direct {
        direct := direct + [slot];
      } else {
        queued := queued + [slot];
      }
    }

    method DisconnectAll(ghost signals: set<Signal>, ghost slots: set<Slot>)
      requires this in signals && Consistent(Snapshot(signals, slots))
      modifies this, direct, queued
      ensures Snapshot(signals, slots) == Unlinked(old(Snapshot(signals, slots)), this)
    {
      hide *;
      ghost var x := Snapshot(signals, slots);
      SnapshotIs(signals, slots);
      DirectsAt(signals, this);
      SignalFacts(x, this);
      DisconnectAllDirect(signals, slots);
      DisconnectAllQueued(signals, slots);
      SnapshotIs(signals, slots);
    }

    method DisconnectAllDirect(ghost signals: set<Signal>, ghost slots: set<Slot>)
      requires this in signals && forall t | t in direct :: t in slots
      modifies `direct, direct
      ensures Directs(signals) == old(Directs(signals))[this := []] && Queueds(signals) == old(Queueds(signals))
      ensures Connections(slots) == RemoveEach(old(Connections(slots)), this, old(direct))
    {
      ghost var connected, done: seq<Slot> := Connections(slots), [];
      NoUpdates(connected, this);
      hide RemoveEach, RemoveFirst, Connections, Update;
      while direct != []
        invariant done + direct == old(direct) && forall t | t in done + direct :: t in slots
        invariant Connections(slots) == RemoveEach(connected, this, done)
        decreases |direct|
      {
        var t := direct[0];
        NextTaken(done, direct, slots);
        RemoveEachStep(connected, this, done, t);
        t.SignalDisconnected(this, slots);
        direct, done := direct[1..], done + [t];
      }
      assert done == old(direct);
    }

    method DisconnectAllQueued(ghost signals: set<Signal>, ghost slots: set<Slot>)
      requires this in signals && forall t | t in queued :: t in slots
      modifies `queued, queued
      ensures Queueds(signals) == old(Queueds(signals))[this := []] && Directs(signals) == old(Directs(signals))
      ensures Connections(slots) == RemoveEach(old(Connections(slots)), this, old(queued))
    {
      ghost var connected, done: seq<Slot> := Connections(slots), [];
      NoUpdates(connected, this);
      hide RemoveEach, RemoveFirst, Connections, Update;
      while queued != []
        invariant done + queued == old(queued) && forall t | t in done + queued :: t in slots
        invariant Connections(slots) == RemoveEach(connected, this, done)
        decreases |queued|
      {
        var t := queued[0];
        NextTaken(done, queued, slots);
        RemoveEachStep(connected, this, done, t);
        t.SignalDisconnected(this, slots);
        queued, done := queued[1..], done + [t];
      }
      assert done == old(queued);
    }

    method Disconnect(slot: Slot, ghost signals: set<Signal>, ghost slots: set<Slot>)
      requires this in signals && slot in slots
      modifies this, slot
      ensures Snapshot(signals, slots) == UnlinkedOnce(old(Snapshot(signals, slots)), this, slot)
    {
      hide *;
      SnapshotIs(signals, slots);
      DirectsAt(signals, this);
      OnceFacts(Snapshot(signals, slots), this, slot);
      DisconnectDirect(slot, signals, slots);
      DisconnectQueued(slot, signals, slots);
      SnapshotIs(signals, slots);
    }

    method DisconnectDirect(slot: Slot, ghost signals: set<Signal>, ghost slots: set<Slot>)
      requires this in signals && slot in slots
      modifies `direct, slot
      ensures Directs(signals) == Update(old(Directs(signals)), this, slot) && Queueds(signals) == old(Queueds(signals))
      ensures Connections(slots) == Told(old(Connections(slots)), slot, this, slot in old(direct))
    {
      hide *;
      DirectsAt(signals, this);
      NoUpdate(Directs(signals), this, slot);
      ToldIs(Connections(slots), slot, this);
      if slot in direct {
        slot.SignalDisconnected(this, slots);
        EraseDirect(slot, signals);
      }
    }

    method DisconnectQueued(slot: Slot, ghost signals: set<Signal>, ghost slots: set<Slot>)
      requires this in signals && slot in slots
      modifies `queued, slot
      ensures Directs(signals) == old(Directs(signals)) && Queueds(signals) == Update(old(Queueds(signals)), this, slot)
      ensures Connections(slots) == Told(old(Connections(slots)), slot, this, slot in old(queued))
    {
      hide *;
      DirectsAt(signals, this);
      NoUpdate(Queueds(signals), this, slot);
      ToldIs(Connections(slots), slot, this);
      if slot in queued {
        slot.SignalDisconnected(this, slots);
        EraseQueued(slot, signals);
      }
    }

    method EraseDirect(slot: Slot, ghost signals: set<Signal>)
      requires this in signals
      modifies `direct
      ensures Directs(signals) == Update(old(Directs(signals)), this, slot) && Queueds(signals) == old(Queueds(signals))
    {
      direct := RemoveFirst(direct, slot);
    }

    method EraseQueued(slot: Slot, ghost signals: set<Signal>)
      requires this in signals
      modifies `queued
      ensures Directs(signals) == old(Directs(signals)) && Queueds(signals) == Update(old(Queueds(signals)), this, slot)
    {
      queued := RemoveFirst(queued, slot);
    }

    /** Disconnects without telling the slot, which calls this from its destructor. */
    method RemoveSlotConnection(slot: Slot, ghost signals: set<Signal>)
      requires this in signals
      modifies this
      ensures Directs(signals) == Update(old(Directs(signals)), this, slot)
      ensures Queueds(signals) == Update(old(Queueds(signals)), this, slot)
    {
      hide *;
      DirectsAt(signals, this);
      NoUpdate(Directs(signals), this, slot);
      NoUpdate(Queueds(signals), this, slot);
      if slot in direct {
        EraseDirect(slot, signals);
      }
      if slot in queued {
        EraseQueued(slot, signals);
      }
    }

    /** The destructor, among the live objects. */
    method Destroy(ghost signals: set<Signal>, ghost slots: set<Slot>)
      requires this in signals && Consistent(Snapshot(signals, slots))
      modifies this, direct, queued
      ensures Snapshot(signals - {this}, slots) == WithoutSignal(old(Snapshot(signals, slots)), this)
    {
      hide *;
      WithoutSignalIs(Snapshot(signals, slots), this);
      SnapshotIs(signals, slots);
      DisconnectAll(signals, slots);
      SnapshotIs(signals, slots);
      SnapshotIs(signals - {this}, slots);
      SnapshotMinus(signals, slots, this);
    }

    /** Emits on thread `caller`: at once if that is the owner's thread, and at the owner's queue if not. */
    method Emit(value: Value, caller: ThreadId, log: CallLog, ghost threads: set<ThreadedObject>) returns (threw: bool)
      requires Rooted(queued, threads) && (parent.Threaded? ==> parent.root in threads)
      modifies log, threads
      ensures Effect(State(Queues(threads), log.calls), threw)
           == Emitted(State(old(Queues(threads)), old(log.calls)), this, direct, queued, value, caller)
    {
      if parent.NoParent? {
        CallDirectConnections(value, caller, log);
        return false;
      }
      if caller == parent.ThreadId(caller) {
        CallDirectConnections(value, caller, log);
        threw := CallQueuedConnections(value, threads);
      } else {
        parent.root.AddEvent(EmitLater(this, value), threads);
        threw := false;
      }
    }

    method CallDirectConnections(value: Value, thread: ThreadId, log: CallLog)
      modifies log
      ensures log.calls == old(log.calls) + Calls(thread, direct, value)
    {
      var i := 0;
      assert log.calls == log.calls + [];
      while i < |direct|
        invariant 0 <= i <= |direct|
        invariant log.calls == old(log.calls) + Calls(thread, direct[..i], value)
      {
        direct[i].Call(value, thread, log);
        assert direct[..i + 1] == direct[..i] + [direct[i]];
        i := i + 1;
      }
      assert direct[..i] == direct;
    }

    method CallQueuedConnections(value: Value, ghost threads: set<ThreadedObject>) returns (threw: bool)
      requires Rooted(queued, threads)
      modifies threads
      ensures threw == SendAll(old(Queues(threads)), queued, value).threw
      ensures Queues(threads) == SendAll(old(Queues(threads)), queued, value).queues
    {
      var i := 0;
      while i < |queued|
        invariant 0 <= i <= |queued|
        invariant SendAll(Queues(threads), queued[i..], value) == SendAll(old(Queues(threads)), queued, value)
      {
        assert queued[i] in queued && queued[i..][0] == queued[i] && queued[i..][1..] == queued[i + 1..];
        threw := queued[i].AddEventToParent(value, threads);
        if threw { return; }
        i := i + 1;
      }
      threw := false;
    }
  }

  // ---- emission on values

  ghost function Queues(threads: set<ThreadedObject>): (queues: map<ThreadedObject, seq<Task>>)
    reads threads`eventList
    ensures queues.Keys == threads
  {
    map o | o in threads :: o.eventList
  }

  lemma QueuesAt(threads: set<ThreadedObject>, o: ThreadedObject)
    requires o in threads
    ensures Queues(threads)[o] == o.eventList
  {}

  /** The queue of every thread, and the calls made so far. */
  datatype State = State(queues: map<ThreadedObject, seq<Task>>, calls: seq<Invocation>)

  /** What an emission leads to; `threw` if it ended in an exception. */
  datatype Effect = Effect(state: State, threw: bool)

  /** Every slot whose parent has a thread has it among `threads`. */
  ghost predicate Rooted(slots: seq<Slot>, threads: set<ThreadedObject>) {
    forall t | t in slots && t.parent.Threaded? :: t.parent.root in threads
  }

  function Calls(thread: ThreadId, slots: seq<Slot>, value: Value): (calls: seq<Invocation>)
    ensures |calls| == |slots| && forall i | 0 <= i < |slots| :: calls[i] == Invocation(thread, slots[i], value, false)
  {
    seq(|slots|, i requires 0 <= i < |slots| => Invocation(thread, slots[i], value, false))
  }

  datatype Queueing = Queueing(queues: map<ThreadedObject, seq<Task>>, threw: bool)

  /** One call queued for each slot in turn, up to the first whose root has no queue. */
  ghost function SendAll(queues: map<ThreadedObject, seq<Task>>, slots: seq<Slot>, value: Value): (r: Queueing)
    requires Rooted(slots, queues.Keys)
    ensures r.queues.Keys == queues.Keys && forall o | o in queues :: queues[o] <= r.queues[o]
  {
    if slots == [] then Queueing(queues, false)
    else
      match slots[0].parent
      case NoParent => SendAll(queues, slots[1..], value)
      case Plain => Queueing(queues, true)
      case Threaded(root) => SendAll(Push(queues, root, Deliver(slots[0], value)), slots[1..], value)
  }

  ghost function Called(s: State, call: Invocation): State {
    s.(calls := s.calls + [call])
  }

  /** The emission carried out on `thread`: direct connections first, then the queued ones. */
  ghost function Handled(s: State, direct: seq<Slot>, queued: seq<Slot>, value: Value, thread: ThreadId): Effect
    requires Rooted(queued, s.queues.Keys)
  {
    var sent := SendAll(s.queues, queued, value);
    Effect(State(sent.queues, s.calls + Calls(thread, direct, value)), sent.threw)
  }

  ghost function Emitted(s: State, g: Signal, direct: seq<Slot>, queued: seq<Slot>, value: Value,
      caller: ThreadId): Effect
    requires Rooted(queued, s.queues.Keys) && (g.parent.Threaded? ==> g.parent.root in s.queues)
  {
    if g.parent.NoParent? then Handled(s, direct, [], value, caller)
    else if caller == g.parent.ThreadId(caller) then Handled(s, direct, queued, value, caller)
    else Effect(s.(queues := Push(s.queues, g.parent.root, EmitLater(g, value))), false)
  }

  /** One turn of the loop of `o`, whose queue is not empty. */
  ghost function Turned(s: State, o: ThreadedObject, direct: seq<Slot>, queued: seq<Slot>): Effect
    requires o in s.queues && s.queues[o] != []
    requires Rooted(queued, s.queues.Keys)
  {
    match s.queues[o][0]
    case Deliver(t, value) => Effect(Called(Popped(s, o), Invocation(o.threadId, t, value, true)), false)
    case EmitLater(_, value) =>
      var done := Handled(s, direct, queued, value, o.threadId);
      if done.threw then done else Effect(Popped(done.state, o), false)
  }

  ghost function FrontDirect(task: Task): seq<Slot>
    reads if task.EmitLater? then {task.signal} else {}
  {
    if task.EmitLater? then task.signal.direct else []
  }

  ghost function FrontQueued(task: Task): seq<Slot>
    reads if task.EmitLater? then {task.signal} else {}
  {
    if task.EmitLater? then task.signal.queued else []
  }

  ghost function Popped(s: State, o: ThreadedObject): State
    requires o in s.queues && s.queues[o] != []
  {
    s.(queues := s.queues[o := s.queues[o][1..]])
  }

  // ---- the graph on values

  /** The lists of all live objects. */
  datatype Graph = Graph(
    direct: map<Signal, seq<Slot>>,
    queued: map<Signal, seq<Slot>>,
    connected: map<Slot, seq<Signal>>)

  ghost function Directs(signals: set<Signal>): (m: map<Signal, seq<Slot>>)
    reads signals`direct
    ensures m.Keys == signals
  {
    map g | g in signals :: g.direct
  }

  ghost function Queueds(signals: set<Signal>): (m: map<Signal, seq<Slot>>)
    reads signals`queued
    ensures m.Keys == signals
  {
    map g | g in signals :: g.queued
  }

  ghost function Connections(slots: set<Slot>): (m: map<Slot, seq<Signal>>)
    reads slots`connected
    ensures m.Keys == slots
  {
    map t | t in slots :: t.connected
  }

  lemma DirectsAt(signals: set<Signal>, g: Signal)
    requires g in signals
    ensures Directs(signals)[g] == g.direct && Queueds(signals)[g] == g.queued
  {}

  lemma ConnectionsAt(slots: set<Slot>, t: Slot)
    requires t in slots
    ensures Connections(slots)[t] == t.connected
  {}

  ghost function Snapshot(signals: set<Signal>, slots: set<Slot>): Graph
    reads signals, slots
  {
    Graph(Directs(signals), Queueds(signals), Connections(slots))
  }

  lemma SnapshotIs(signals: set<Signal>, slots: set<Slot>)
    ensures Snapshot(signals, slots) == Graph(Directs(signals), Queueds(signals), Connections(slots))
  {}

  lemma NoUpdate<K, V>(m: map<K, seq<V>>, k: K, v: V)
    requires k in m
    ensures v !in m[k] ==> Update(m, k, v) == m
  {
    RemoveFirstFacts(m[k], v);
  }

  lemma NoUpdates<K, V>(m: map<K, seq<V>>, v: V)
    ensures RemoveEach(m, v, []) == m
  {}

  lemma ConnectionsMinus(slots: set<Slot>, t: Slot)
    ensures Connections(slots - {t}) == Connections(slots) - {t}
  {}

  lemma SnapshotMinus(signals: set<Signal>, slots: set<Slot>, g: Signal)
    requires g in signals
    ensures Directs(signals - {g}) == Directs(signals) - {g} && Queueds(signals - {g}) == Queueds(signals) - {g}
  {}

  ghost function Push<K, V>(m: map<K, seq<V>>, k: K, v: V): map<K, seq<V>>
    requires k in m
  {
    m[k := m[k] + [v]]
  }

  ghost function Linked(x: Graph, g: Signal, t: Slot, queue: bool): Graph
    requires g in x.direct && g in x.queued && t in x.connected
  {
    Graph(
      if queue then x.direct else Push(x.direct, g, t),
      if queue then Push(x.queued, g, t) else x.queued,
      Push(x.connected, t, g))
  }

  lemma LinkedIs(x: Graph, g: Signal, t: Slot, queue: bool)
    requires g in x.direct && g in x.queued && t in x.connected
    ensures Linked(x, g, t, queue).direct == if queue then x.direct else Push(x.direct, g, t)
    ensures Linked(x, g, t, queue).queued == if queue then Push(x.queued, g, t) else x.queued
    ensures Linked(x, g, t, queue).connected == Push(x.connected, t, g)
  {}

  /** `g` without its connections. */
  ghost function Unlinked(x: Graph, g: Signal): Graph {
    Graph(x.direct[g := []], x.queued[g := []], WithoutEach(x.connected, g))
  }

  /** The slot's list when it was told, or not, of one connection removed. */
  ghost function Told(connected: map<Slot, seq<Signal>>, t: Slot, g: Signal, told: bool): map<Slot, seq<Signal>>
    requires t in connected
  {
    if told then Update(connected, t, g) else connected
  }

  /** One direct and one queued connection removed, where there is one. */
  ghost function UnlinkedOnce(x: Graph, g: Signal, t: Slot): Graph
    requires g in x.direct && g in x.queued && t in x.connected
  {
    Graph(Update(x.direct, g, t), Update(x.queued, g, t),
          Told(Told(x.connected, t, g, t in x.direct[g]), t, g, t in x.queued[g]))
  }

  ghost function WithoutSignal(x: Graph, g: Signal): Graph {
    Graph(x.direct - {g}, x.queued - {g}, Unlinked(x, g).connected)
  }

  ghost function WithoutSlot(x: Graph, t: Slot): Graph {
    Graph(WithoutEach(x.direct, t), WithoutEach(x.queued, t), x.connected - {t})
  }

  /** How many connections the signal knows of with the slot. */
  ghost function Links(x: Graph, g: Signal, t: Slot): nat
    requires g in x.direct && g in x.queued
  {
    multiset(x.direct[g])[t] + multiset(x.queued[g])[t]
  }

  /** Nobody refers to a dead object. */
  ghost predicate Closed(x: Graph) {
    && x.direct.Keys == x.queued.Keys
    && (forall g | g in x.direct :: forall t | t in x.direct[g] :: t in x.connected)
    && (forall g | g in x.queued :: forall t | t in x.queued[g] :: t in x.connected)
    && (forall t | t in x.connected :: forall g | g in x.connected[t] :: g in x.direct)
  }

  /** Both sides know of the same connections. */
  ghost predicate Agreed(x: Graph)
    requires x.direct.Keys == x.queued.Keys
  {
    forall g, t | g in x.direct && t in x.connected :: Links(x, g, t) == multiset(x.connected[t])[g]
  }

  /** A queued connection has a parent at both ends, so that there is a queue to put its calls in. */
  ghost predicate Placed(x: Graph) {
    forall g | g in x.queued :: forall t | t in x.queued[g] :: !g.parent.NoParent? && !t.parent.NoParent?
  }

  lemma ToldIs(connected: map<Slot, seq<Signal>>, t: Slot, g: Signal)
    requires t in connected
    ensures Told(connected, t, g, true) == Update(connected, t, g) && Told(connected, t, g, false) == connected
  {}

  lemma OnceFacts(x: Graph, g: Signal, t: Slot)
    requires g in x.direct && g in x.queued && t in x.connected
    ensures UnlinkedOnce(x, g, t).direct == Update(x.direct, g, t)
    ensures UnlinkedOnce(x, g, t).queued == Update(x.queued, g, t)
    ensures UnlinkedOnce(x, g, t).connected
         == Told(Told(x.connected, t, g, t in x.direct[g]), t, g, t in x.queued[g])
  {}

  ghost predicate Consistent(x: Graph) {
    Closed(x) && Agreed(x) && Placed(x)
  }

  /** Forgetting a slot once for every connection it knows of forgets it altogether. */
  lemma SlotFacts(x: Graph, t: Slot)
    requires Consistent(x) && t in x.connected
    ensures forall g | g in x.connected[t] :: g in x.direct && g in x.queued
    ensures Graph(RemoveEach(x.direct, t, x.connected[t]), RemoveEach(x.queued, t, x.connected[t]),
           x.connected - {t}) == WithoutSlot(x, t)
  {
    forall g | g in x.direct ensures multiset(x.direct[g])[t] <= multiset(x.connected[t])[g]
        && multiset(x.queued[g])[t] <= multiset(x.connected[t])[g] {
      assert Links(x, g, t) == multiset(x.connected[t])[g];
    }
    hide Agreed, Placed, WithoutEach, RemoveEach;
    assert forall g | g in x.connected[t] :: g in x.direct && g in x.queued;
    hide Closed;
    RemoveEachAll(x.direct, t, x.connected[t]);
    RemoveEachAll(x.queued, t, x.connected[t]);
  }

  /** Forgetting a signal once for every connection it knows of forgets it altogether. */
  lemma SignalFacts(x: Graph, g: Signal)
    requires Consistent(x) && g in x.direct
    ensures (forall t | t in x.direct[g] :: t in x.connected) && (forall t | t in x.queued[g] :: t in x.connected)
    ensures Graph(x.direct[g := []], x.queued[g := []],
           RemoveEach(RemoveEach(x.connected, g, x.direct[g]), g, x.queued[g])) == Unlinked(x, g)
  {
    forall t | t in x.connected ensures multiset(x.connected[t])[g] <= multiset(x.direct[g] + x.queued[g])[t] {
      assert Links(x, g, t) == multiset(x.connected[t])[g];
    }
    assert (forall t | t in x.direct[g] :: t in x.connected) && (forall t | t in x.queued[g] :: t in x.connected);
    hide Closed, Agreed, Placed, WithoutEach, RemoveEach;
    RemoveEachAll(x.connected, g, x.direct[g] + x.queued[g]);
    RemoveEachTwice(x.connected, g, x.direct[g], x.queued[g]);
  }

  lemma WithoutSignalIs(x: Graph, g: Signal)
    ensures WithoutSignal(x, g) == Graph(Unlinked(x, g).direct - {g}, Unlinked(x, g).queued - {g},
           Unlinked(x, g).connected)
  {}
}
