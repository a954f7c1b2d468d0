/** What every run of making, connecting, disconnecting and destroying signals and slots keeps. */
module SignalSlotRuns {
  import opened Lists
  import opened SignalSlot

  datatype Event =
    | MakeSignal(signal: Signal)
    | MakeSlot(slot: Slot)
    | Connect(signal: Signal, slot: Slot, kind: ConnectionType, caller: ThreadId)
    | DisconnectAll(signal: Signal)
    | Disconnect(signal: Signal, slot: Slot)
    | DestroySignal(signal: Signal)
    | DestroySlot(slot: Slot)

  const EMPTY: Graph := Graph(map[], map[], map[])

  /** Operations are on live objects, and a new object is none of them. */
  ghost predicate Legal(x: Graph, e: Event) {
    match e
    case MakeSignal(g) => g !in x.direct && g !in x.queued
    case MakeSlot(t) => t !in x.connected
    case Connect(g, t, _, _) => g in x.direct && g in x.queued && t in x.connected
    case DisconnectAll(g) => g in x.direct && g in x.queued
    case Disconnect(g, t) => g in x.direct && g in x.queued && t in x.connected
    case DestroySignal(g) => g in x.direct && g in x.queued
    case DestroySlot(t) => t in x.connected
  }

  ghost function Step(x: Graph, e: Event): Graph
    requires Legal(x, e)
  {
    match e
    case MakeSignal(g) => Graph(x.direct[g := []], x.queued[g := []], x.connected)
    case MakeSlot(t) => Graph(x.direct, x.queued, x.connected[t := []])
    case Connect(g, t, kind, caller) => Linked(x, g, t, Placement(g.parent, t.parent, kind, caller) == Queued)
    case DisconnectAll(g) => Unlinked(x, g)
    case Disconnect(g, t) => UnlinkedOnce(x, g, t)
    case DestroySignal(g) => WithoutSignal(x, g)
    case DestroySlot(t) => WithoutSlot(x, t)
  }

  ghost predicate LegalRun(x: Graph, events: seq<Event>)
    decreases |events|
  {
    events == [] || (Legal(x, events[0]) && LegalRun(Step(x, events[0]), events[1..]))
  }

  ghost function Run(x: Graph, events: seq<Event>): Graph
    requires LegalRun(x, events)
    decreases |events|
  {
    if events == [] then x else Run(Step(x, events[0]), events[1..])
  }

  /** Lists hold the live objects they held, or more of them. */
  lemma MakeKeeps(x: Graph, e: Event)
    requires Consistent(x) && Legal(x, e) && (e.MakeSignal? || e.MakeSlot?)
    ensures Consistent(Step(x, e))
  {
    var y := Step(x, e);
    if e.MakeSignal? {
      assert forall t | t in x.connected :: e.signal !in x.connected[t];
    } else {
      assert forall g | g in x.direct :: e.slot !in x.direct[g] && e.slot !in x.queued[g];
    }
    forall g, t | g in y.direct && t in y.connected ensures Links(y, g, t) == multiset(y.connected[t])[g] {
      if g in x.direct && t in x.connected {
        assert Links(x, g, t) == multiset(x.connected[t])[g];
      }
    }
  }

  /** Pushing adds one mention to its own list, and to no other. */
  lemma PushCounts<K, V>(m: map<K, seq<V>>, k: K, v: V)
    requires k in m
    ensures Push(m, k, v).Keys == m.Keys
    ensures forall h, w | h in m ::
           multiset(Push(m, k, v)[h])[w] == multiset(m[h])[w] + if h == k && w == v then 1 else 0
    ensures forall h | h in m :: forall w | w in Push(m, k, v)[h] :: w in m[h] || (h == k && w == v)
  {}

  lemma ConnectKeeps(x: Graph, g: Signal, t: Slot, queue: bool)
    requires Consistent(x) && g in x.direct && t in x.connected
    requires queue ==> !g.parent.NoParent? && !t.parent.NoParent?
    ensures Consistent(Linked(x, g, t, queue))
  {
    PushCounts(if queue then x.queued else x.direct, g, t);
    PushCounts(x.connected, t, g);
    hide Push;
    LinkedAgrees(x, g, t, queue);
    hide Agreed;
  }

  lemma LinkedAgrees(x: Graph, g: Signal, t: Slot, queue: bool)
    requires x.direct.Keys == x.queued.Keys && Agreed(x) && g in x.direct && t in x.connected
    ensures var y := Linked(x, g, t, queue); y.direct.Keys == y.queued.Keys && Agreed(y)
  {
    PushCounts(if queue then x.queued else x.direct, g, t);
    PushCounts(x.connected, t, g);
    hide Push;
    var y := Linked(x, g, t, queue);
    forall h, u | h in y.direct && u in y.connected ensures Links(y, h, u) == multiset(y.connected[u])[h] {
      assert Links(x, h, u) == multiset(x.connected[u])[h];
    }
  }

  /** A list that only lost elements. */
  ghost predicate Within<K, V>(m: map<K, seq<V>>, n: map<K, seq<V>>) {
    m.Keys <= n.Keys && forall k | k in m :: multiset(m[k]) <= multiset(n[k])
  }

  lemma WithinTwice<K, V>(l: map<K, seq<V>>, m: map<K, seq<V>>, n: map<K, seq<V>>)
    requires Within(l, m) && Within(m, n)
    ensures Within(l, n)
  {
    forall k | k in l ensures multiset(l[k]) <= multiset(n[k]) {
      assert multiset(l[k]) <= multiset(m[k]) <= multiset(n[k]);
    }
  }

  lemma UpdateWithin<K, V>(m: map<K, seq<V>>, k: K, v: V)
    requires k in m
    ensures Update(m, k, v).Keys == m.Keys && Within(Update(m, k, v), m)
  {
    RemoveFirstFacts(m[k], v);
    hide RemoveFirst;
  }

  lemma LessWithin<K, V>(m: map<K, seq<V>>, k: K)
    ensures Within(m - {k}, m) && Within(m, m)
    ensures k in m ==> m[k := []].Keys == m.Keys && Within(m[k := []], m)
  {}

  lemma WithoutWithin<K, V>(m: map<K, seq<V>>, v: V)
    ensures WithoutEach(m, v).Keys == m.Keys && Within(WithoutEach(m, v), m)
    ensures forall k | k in m :: multiset(WithoutEach(m, v)[k]) == multiset(m[k])[v := 0]
  {
    forall k | k in m ensures multiset(WithoutEach(m, v)[k]) == multiset(m[k])[v := 0] {
      WithoutFacts(m[k], v);
    }
    hide Without;
  }

  lemma Members<K, V>(m: map<K, seq<V>>, n: map<K, seq<V>>, k: K, v: V)
    requires Within(m, n) && k in m && v in m[k]
    ensures v in n[k] && multiset(m[k])[v] > 0
  {
    assert v in multiset(m[k]) && multiset(m[k])[v] <= multiset(n[k])[v];
  }

  /** `y` has no more connections than `x`, and none with an object it does not have. */
  ghost predicate Shrinks(x: Graph, y: Graph)
    requires x.direct.Keys == x.queued.Keys && y.direct.Keys == y.queued.Keys
  {
    && Within(y.direct, x.direct) && Within(y.queued, x.queued) && Within(y.connected, x.connected)
    && (forall g, t | g in y.direct && t in x.connected && t !in y.connected :: Links(y, g, t) == 0)
    && (forall t, g | t in y.connected && g in x.direct && g !in y.direct :: multiset(y.connected[t])[g] == 0)
  }

  /** Losing connections leaves references to live objects and placements as they were. */
  lemma ShrinkKeeps(x: Graph, y: Graph)
    requires Closed(x) && Placed(x) && y.direct.Keys == y.queued.Keys && Shrinks(x, y)
    ensures Closed(y) && Placed(y)
  {
    forall g, t | g in y.direct && t in y.direct[g] ensures t in y.connected {
      Members(y.direct, x.direct, g, t);
      assert t in x.connected && Links(y, g, t) != 0;
    }
    forall g, t | g in y.queued && t in y.queued[g]
        ensures t in y.connected && !g.parent.NoParent? && !t.parent.NoParent? {
      Members(y.queued, x.queued, g, t);
      assert t in x.connected && Links(y, g, t) != 0;
    }
    forall t, g | t in y.connected && g in y.connected[t] ensures g in y.direct {
      Members(y.connected, x.connected, t, g);
    }
  }

  lemma SignalShrinks(x: Graph, g: Signal)
    requires x.direct.Keys == x.queued.Keys && g in x.direct
    ensures Shrinks(x, Unlinked(x, g)) && Shrinks(x, WithoutSignal(x, g))
  {
    WithoutWithin(x.connected, g);
    LessWithin(x.direct, g);
    LessWithin(x.queued, g);
    hide WithoutEach, Within;
  }

  lemma SignalAgrees(x: Graph, g: Signal)
    requires x.direct.Keys == x.queued.Keys && Agreed(x) && g in x.direct
    ensures Agreed(Unlinked(x, g)) && Agreed(WithoutSignal(x, g))
  {
    WithoutWithin(x.connected, g);
    var y := Unlinked(x, g);
    hide WithoutEach, Within;
    forall h, u | h in y.direct && u in y.connected ensures Links(y, h, u) == multiset(y.connected[u])[h] {
      assert Links(x, h, u) == multiset(x.connected[u])[h];
    }
    assert forall h, u | h in x.direct && h != g && u in y.connected ::
        Links(WithoutSignal(x, g), h, u) == Links(y, h, u);
  }

  lemma SlotShrinks(x: Graph, t: Slot)
    requires x.direct.Keys == x.queued.Keys
    ensures Shrinks(x, WithoutSlot(x, t))
  {
    WithoutWithin(x.direct, t);
    WithoutWithin(x.queued, t);
    LessWithin(x.connected, t);
    hide WithoutEach, Within;
  }

  lemma SlotAgrees(x: Graph, t: Slot)
    requires x.direct.Keys == x.queued.Keys && Agreed(x)
    ensures Agreed(WithoutSlot(x, t))
  {
    WithoutWithin(x.direct, t);
    WithoutWithin(x.queued, t);
    var y := WithoutSlot(x, t);
    hide WithoutEach, Within;
    forall h, u | h in y.direct && u in y.connected ensures Links(y, h, u) == multiset(y.connected[u])[h] {
      assert Links(x, h, u) == multiset(x.connected[u])[h];
    }
  }

  lemma OnceShrinks(x: Graph, g: Signal, t: Slot)
    requires x.direct.Keys == x.queued.Keys && g in x.direct && t in x.connected
    ensures UnlinkedOnce(x, g, t).direct.Keys == UnlinkedOnce(x, g, t).queued.Keys && Shrinks(x, UnlinkedOnce(x, g, t))
  {
    UpdateWithin(x.direct, g, t);
    UpdateWithin(x.queued, g, t);
    UpdateWithin(x.connected, t, g);
    UpdateWithin(Update(x.connected, t, g), t, g);
    WithinTwice(Update(Update(x.connected, t, g), t, g), Update(x.connected, t, g), x.connected);
    LessWithin(x.connected, t);
    hide Update, Within;
  }

  /** One update takes one mention from its own list, and leaves all other counts. */
  lemma UpdateCounts<K, V>(m: map<K, seq<V>>, k: K, v: V)
    requires k in m
    ensures Update(m, k, v).Keys == m.Keys
    ensures multiset(Update(m, k, v)[k])[v] == multiset(m[k])[v] - (if v in m[k] then 1 else 0)
    ensures forall w | w != v :: multiset(Update(m, k, v)[k])[w] == multiset(m[k])[w]
    ensures v in m[k] <==> multiset(m[k])[v] > 0
  {
    RemoveFirstFacts(m[k], v);
    hide RemoveFirst;
  }

  lemma ToldCounts(m: map<Slot, seq<Signal>>, t: Slot, g: Signal, told: bool)
    requires t in m && (told ==> g in m[t])
    ensures Told(m, t, g, told).Keys == m.Keys
    ensures multiset(Told(m, t, g, told)[t])[g] == multiset(m[t])[g] - (if told then 1 else 0)
    ensures forall h | h != g :: multiset(Told(m, t, g, told)[t])[h] == multiset(m[t])[h]
    ensures g in Told(m, t, g, told)[t] <==> multiset(Told(m, t, g, told)[t])[g] > 0
  {
    UpdateCounts(m, t, g);
    hide Update;
  }

  /** What disconnecting takes from the lists of the pair. */
  lemma OncePair(x: Graph, g: Signal, t: Slot)
    requires g in x.direct && g in x.queued && t in x.connected && Links(x, g, t) == multiset(x.connected[t])[g]
    ensures var y := UnlinkedOnce(x, g, t);
            && Links(y, g, t) == multiset(y.connected[t])[g]
            && multiset(y.connected[t])[g] == multiset(x.connected[t])[g]
                 - (if t in x.direct[g] then 1 else 0) - (if t in x.queued[g] then 1 else 0)
            && (forall u | u != t :: Links(y, g, u) == Links(x, g, u))
            && (forall h | h != g :: multiset(y.connected[t])[h] == multiset(x.connected[t])[h])
  {
    UpdateCounts(x.direct, g, t);
    UpdateCounts(x.queued, g, t);
    var first, second := t in x.direct[g], t in x.queued[g];
    UpdateCounts(x.connected, t, g);
    ToldCounts(x.connected, t, g, first);
    ToldCounts(Told(x.connected, t, g, first), t, g, second);
    hide Update, Told;
  }

  lemma OnceOthers(x: Graph, g: Signal, t: Slot)
    requires g in x.direct && g in x.queued && t in x.connected
    ensures var y := UnlinkedOnce(x, g, t);
            && y.direct.Keys == x.direct.Keys && y.queued.Keys == x.queued.Keys && y.connected.Keys == x.connected.Keys
            && (forall h, u | h in x.direct && h in x.queued && h != g :: Links(y, h, u) == Links(x, h, u))
            && (forall u | u in x.connected && u != t :: y.connected[u] == x.connected[u])
  {
    hide RemoveFirst;
  }

  lemma OnceAgrees(x: Graph, g: Signal, t: Slot)
    requires x.direct.Keys == x.queued.Keys && Agreed(x) && g in x.direct && t in x.connected
    ensures var y := UnlinkedOnce(x, g, t); y.direct.Keys == y.queued.Keys && Agreed(y)
  {
    assert Links(x, g, t) == multiset(x.connected[t])[g];
    OncePair(x, g, t);
    OnceOthers(x, g, t);
    hide UnlinkedOnce, Links;
    var y := UnlinkedOnce(x, g, t);
    forall h, u | h in y.direct && u in y.connected ensures Links(y, h, u) == multiset(y.connected[u])[h] {
      assert Links(x, h, u) == multiset(x.connected[u])[h];
    }
  }

  lemma SignalKeeps(x: Graph, g: Signal)
    requires Consistent(x) && g in x.direct
    ensures Consistent(Unlinked(x, g)) && Consistent(WithoutSignal(x, g))
  {
    hide Agreed, Placed, Shrinks, WithoutEach;
    SignalShrinks(x, g);
    SignalAgrees(x, g);
    ShrinkKeeps(x, Unlinked(x, g));
    ShrinkKeeps(x, WithoutSignal(x, g));
  }

  lemma SlotKeeps(x: Graph, t: Slot)
    requires Consistent(x) && t in x.connected
    ensures Consistent(WithoutSlot(x, t))
  {
    hide Agreed, Placed, Shrinks, WithoutEach;
    SlotShrinks(x, t);
    SlotAgrees(x, t);
    WithoutWithin(x.direct, t);
    WithoutWithin(x.queued, t);
    hide Within;
    ShrinkKeeps(x, WithoutSlot(x, t));
  }

  lemma OnceKeeps(x: Graph, g: Signal, t: Slot)
    requires Consistent(x) && g in x.direct && t in x.connected
    ensures Consistent(UnlinkedOnce(x, g, t))
  {
    hide Agreed, Placed, Shrinks, UnlinkedOnce;
    OnceShrinks(x, g, t);
    OnceAgrees(x, g, t);
    ShrinkKeeps(x, UnlinkedOnce(x, g, t));
  }

  lemma StepKeeps(x: Graph, e: Event)
    requires Consistent(x) && Legal(x, e)
    ensures Consistent(Step(x, e))
  {
    hide Consistent, Linked, Unlinked, UnlinkedOnce, WithoutSignal, WithoutSlot;
    match e
    case MakeSignal(_) => MakeKeeps(x, e);
    case MakeSlot(_) => MakeKeeps(x, e);
    case Connect(g, t, kind, caller) => ConnectKeeps(x, g, t, Placement(g.parent, t.parent, kind, caller) == Queued);
    case DisconnectAll(g) => SignalKeeps(x, g);
    case Disconnect(g, t) => OnceKeeps(x, g, t);
    case DestroySignal(g) => SignalKeeps(x, g);
    case DestroySlot(t) => SlotKeeps(x, t);
  }

  lemma {:induction false} RunKeeps(x: Graph, events: seq<Event>)
    requires Consistent(x) && LegalRun(x, events)
    ensures Consistent(Run(x, events))
    decreases |events|
  {
    hide Consistent, Legal, Step;
    if events != [] {
      StepKeeps(x, events[0]);
      RunKeeps(Step(x, events[0]), events[1..]);
    }
  }

  // ---- main results

  /**
    After any run, both ends count the same connections, duplicates included, and every object
    referred to is live: no reference to a destroyed one is left.
   */
  lemma NoDanglingConnections(events: seq<Event>)
    requires LegalRun(EMPTY, events)
    ensures var x := Run(EMPTY, events);
            && x.direct.Keys == x.queued.Keys
            && (forall g, t | g in x.direct && t in x.connected ::
                  multiset(x.direct[g])[t] + multiset(x.queued[g])[t] == multiset(x.connected[t])[g])
            && (forall g | g in x.direct :: forall t | t in x.direct[g] :: t in x.connected)
            && (forall g | g in x.queued :: forall t | t in x.queued[g] :: t in x.connected)
            && (forall t | t in x.connected :: forall g | g in x.connected[t] :: g in x.direct)
  {
    RunKeeps(EMPTY, events);
    var x := Run(EMPTY, events);
    forall g, t | g in x.direct && t in x.connected
      ensures multiset(x.direct[g])[t] + multiset(x.queued[g])[t] == multiset(x.connected[t])[g]
    {
      assert Links(x, g, t) == multiset(x.connected[t])[g];
    }
  }

  /** After any run, a connection is queued only between two objects with parents. */
  lemma NeverQueuedWithoutParents(events: seq<Event>)
    requires LegalRun(EMPTY, events)
    ensures var x := Run(EMPTY, events);
            forall g | g in x.queued :: forall t | t in x.queued[g] :: !g.parent.NoParent? && !t.parent.NoParent?
  {
    RunKeeps(EMPTY, events);
  }

  /** Whether a connection asked for is queued: so asked for, or left to the threads and these differ. */
  ghost predicate GoesToQueue(g: Signal, t: Slot, kind: ConnectionType, caller: ThreadId) {
    && !g.parent.NoParent? && !t.parent.NoParent?
    && (kind == Queued || (kind == Auto && g.parent.ThreadId(caller) != t.parent.ThreadId(caller)))
  }

  /**
    Connecting puts the pair at the end of one list of the signal and of the slot's list, and changes
    no other list.
   */
  lemma ConnectAppends(x: Graph, g: Signal, t: Slot, kind: ConnectionType, caller: ThreadId)
    requires Legal(x, Connect(g, t, kind, caller))
    ensures var y := Step(x, Connect(g, t, kind, caller));
            && y.direct.Keys == x.direct.Keys && y.queued.Keys == x.queued.Keys && y.connected.Keys == x.connected.Keys
            && (forall h | h in x.direct ::
                  y.direct[h] == x.direct[h] + if h == g && !GoesToQueue(g, t, kind, caller) then [t] else [])
            && (forall h | h in x.queued ::
                  y.queued[h] == x.queued[h] + if h == g && GoesToQueue(g, t, kind, caller) then [t] else [])
            && (forall u | u in x.connected :: y.connected[u] == x.connected[u] + if u == t then [g] else [])
  {
    assert forall h | h in x.direct :: x.direct[h] + [] == x.direct[h];
    assert forall h | h in x.queued :: x.queued[h] + [] == x.queued[h];
    assert forall u | u in x.connected :: x.connected[u] + [] == x.connected[u];
  }

  /** The slots connected to `g` directly, or queued, in the order of the calls. */
  ghost function Asked(events: seq<Event>, g: Signal, queue: bool): seq<Slot> {
    if events == [] then []
    else
      var e := events[0];
      (if e.Connect? && e.signal == g && GoesToQueue(g, e.slot, e.kind, e.caller) == queue then [e.slot] else [])
      + Asked(events[1..], g, queue)
  }

  /** Over every run of connecting, the lists of a signal hold the slots in the order they were connected. */
  lemma {:induction false} ListedInOrder(x: Graph, events: seq<Event>, g: Signal)
    requires LegalRun(x, events) && g in x.direct && g in x.queued
    requires forall i | 0 <= i < |events| :: events[i].Connect?
    ensures var y := Run(x, events);
            && g in y.direct && y.direct[g] == x.direct[g] + Asked(events, g, false)
            && g in y.queued && y.queued[g] == x.queued[g] + Asked(events, g, true)
    decreases |events|
  {
    hide *;
    if events == [] {
      NoneAsked(x, g);
    } else {
      var e := events[0];
      FirstOnly(events);
      FirstLegal(x, events);
      ConnectAppends(x, e.signal, e.slot, e.kind, e.caller);
      ListedInOrder(Step(x, e), events[1..], g);
      AskedFirst(events, g, false, x.direct[g]);
      AskedFirst(events, g, true, x.queued[g]);
    }
  }

  lemma NoneAsked(x: Graph, g: Signal)
    ensures Run(x, []) == x && Asked([], g, false) == [] && Asked([], g, true) == []
  {}

  lemma FirstOnly(events: seq<Event>)
    requires events != [] && forall i | 0 <= i < |events| :: events[i].Connect?
    ensures events[0].Connect? && forall i | 0 <= i < |events[1..]| :: events[1..][i].Connect?
  {
    assert forall i | 0 <= i < |events[1..]| :: events[1..][i] == events[i + 1];
  }

  lemma FirstLegal(x: Graph, events: seq<Event>)
    requires LegalRun(x, events) && events != [] && events[0].Connect?
    ensures var e := events[0];
            && Legal(x, e) && Legal(x, Connect(e.signal, e.slot, e.kind, e.caller))
                  && e == Connect(e.signal, e.slot, e.kind, e.caller)
            && LegalRun(Step(x, e), events[1..]) && Run(x, events) == Run(Step(x, e), events[1..])
  {
    hide Step;
  }

  lemma AskedFirst(events: seq<Event>, g: Signal, queue: bool, listed: seq<Slot>)
    requires events != [] && events[0].Connect?
    ensures var e := events[0];
            var first := if e.signal == g && GoesToQueue(g, e.slot, e.kind, e.caller) == queue then [e.slot] else [];
            listed + first + Asked(events[1..], g, queue) == listed + Asked(events, g, queue)
  {
    hide GoesToQueue;
  }

  /**
    Disconnecting a pair cuts the first entry of the slot out of each list of the signal, and out of the
    slot's list one entry of the signal for each of these; all other entries stay in their order.
   */
  lemma DisconnectCuts(x: Graph, g: Signal, t: Slot)
    requires Legal(x, Disconnect(g, t))
    ensures var y := Step(x, Disconnect(g, t));
            && y.direct.Keys == x.direct.Keys && y.queued.Keys == x.queued.Keys && y.connected.Keys == x.connected.Keys
            && CutOut(x.direct[g], t, y.direct[g]) && CutOut(x.queued[g], t, y.queued[g])
            && (forall h | h in x.direct && h != g :: y.direct[h] == x.direct[h])
            && (forall h | h in x.queued && h != g :: y.queued[h] == x.queued[h])
            && (forall u | u in x.connected && u != t :: y.connected[u] == x.connected[u])
            && (t in x.direct[g] && t in x.queued[g] ==>
                  exists l :: CutOut(x.connected[t], g, l) && CutOut(l, g, y.connected[t]))
            && ((t in x.direct[g]) != (t in x.queued[g]) ==> CutOut(x.connected[t], g, y.connected[t]))
            && (t !in x.direct[g] && t !in x.queued[g] ==> y.connected[t] == x.connected[t])
  {
    RemoveFirstCuts(x.direct[g], t);
    RemoveFirstCuts(x.queued[g], t);
    RemoveFirstCuts(x.connected[t], g);
    RemoveFirstCuts(RemoveFirst(x.connected[t], g), g);
    hide RemoveFirst, CutOut;
  }

  lemma ConnectionsFiltered(m: map<Slot, seq<Signal>>, g: Signal)
    ensures var n := WithoutEach(m, g); n.Keys == m.Keys && forall u | u in m :: Filtered(m[u], g, n[u])
  {
    forall u | u in m ensures Filtered(m[u], g, Without(m[u], g)) { WithoutFilters(m[u], g); }
    hide Without, Filtered;
  }

  lemma SlotsFiltered(m: map<Signal, seq<Slot>>, t: Slot)
    ensures var n := WithoutEach(m, t); n.Keys == m.Keys && forall h | h in m :: Filtered(m[h], t, n[h])
  {
    forall h | h in m ensures Filtered(m[h], t, Without(m[h], t)) { WithoutFilters(m[h], t); }
    hide Without, Filtered;
  }

  /** Disconnecting a signal empties its lists, and leaves those of the slots without it, in their order. */
  lemma DisconnectAllFilters(x: Graph, g: Signal)
    requires Legal(x, DisconnectAll(g))
    ensures var y := Step(x, DisconnectAll(g));
            && y.direct == x.direct[g := []] && y.queued == x.queued[g := []] && y.connected.Keys == x.connected.Keys
            && forall u | u in x.connected :: Filtered(x.connected[u], g, y.connected[u])
  {
    ConnectionsFiltered(x.connected, g);
    hide WithoutEach, Filtered;
  }

  /** Destroying one ends its lists instead. */
  lemma DestroySignalFilters(x: Graph, g: Signal)
    requires Legal(x, DestroySignal(g))
    ensures var y := Step(x, DestroySignal(g));
            && y.direct == x.direct - {g} && y.queued == x.queued - {g} && y.connected.Keys == x.connected.Keys
            && forall u | u in x.connected :: Filtered(x.connected[u], g, y.connected[u])
  {
    ConnectionsFiltered(x.connected, g);
    hide WithoutEach, Filtered;
  }

  /** Destroying a slot ends its list, and leaves those of the signals without it, in their order. */
  lemma DestroySlotFilters(x: Graph, t: Slot)
    requires Legal(x, DestroySlot(t))
    ensures var y := Step(x, DestroySlot(t));
            && y.connected == x.connected - {t} && y.direct.Keys == x.direct.Keys && y.queued.Keys == x.queued.Keys
            && (forall h | h in x.direct :: Filtered(x.direct[h], t, y.direct[h]))
            && (forall h | h in x.queued :: Filtered(x.queued[h], t, y.queued[h]))
  {
    SlotsFiltered(x.direct, t);
    SlotsFiltered(x.queued, t);
    hide WithoutEach, Filtered;
  }

  /** Disconnecting a pair takes one connection from each list it is in, so a pair connected both ways loses two. */
  lemma DisconnectCounts(x: Graph, g: Signal, t: Slot)
    requires Consistent(x) && g in x.direct && t in x.connected
    ensures var y := UnlinkedOnce(x, g, t);
            multiset(y.connected[t])[g] == multiset(x.connected[t])[g]
              - (if t in x.direct[g] then 1 else 0) - (if t in x.queued[g] then 1 else 0)
  {
    assert Links(x, g, t) == multiset(x.connected[t])[g];
    OncePair(x, g, t);
  }

  // ---- real objects

  /** Commands name the live objects by position; one that names none does nothing. */
  datatype Command =
    | NewSignal(parent: Parent)
    | NewSlot(parent: Parent)
    | ConnectThem(i: nat, j: nat, kind: ConnectionType, caller: ThreadId)
    | DisconnectSignal(i: nat)
    | DisconnectThem(i: nat, j: nat)
    | DeleteSignal(i: nat)
    | DeleteSlot(j: nat)

  ghost function AsSet<T>(s: seq<T>): set<T> {
    set x | x in s
  }

  ghost predicate Distinct<T>(s: seq<T>) {
    forall i, j | 0 <= i < j < |s| :: s[i] != s[j]
  }

  lemma Cut<T>(s: seq<T>, i: nat)
    requires i < |s| && Distinct(s)
    ensures Distinct(s[..i] + s[i + 1..]) && AsSet(s[..i] + s[i + 1..]) == AsSet(s) - {s[i]}
  {
    var r := s[..i] + s[i + 1..];
    forall x | x in AsSet(s) - {s[i]} ensures x in r {
      var k :| 0 <= k < |s| && s[k] == x;
      assert x == if k < i then r[k] else r[k - 1];
    }
  }

  lemma More<T>(s: seq<T>, x: T)
    requires x !in s && Distinct(s)
    ensures Distinct(s + [x]) && AsSet(s + [x]) == AsSet(s) + {x}
  {}

  lemma WithSignal(signals: set<Signal>, slots: set<Slot>, g: Signal)
    requires g !in signals && g.direct == g.queued == []
    ensures Snapshot(signals + {g}, slots) == Step(Snapshot(signals, slots), MakeSignal(g))
  {}

  lemma WithSlot(signals: set<Signal>, slots: set<Slot>, t: Slot)
    requires t !in slots && t.connected == []
    ensures Snapshot(signals, slots + {t}) == Step(Snapshot(signals, slots), MakeSlot(t))
  {}

  lemma Domains(signals: set<Signal>, slots: set<Slot>)
    ensures var x := Snapshot(signals, slots); x.direct.Keys == x.queued.Keys == signals && x.connected.Keys == slots
  {}

  lemma Neighbours(signals: set<Signal>, slots: set<Slot>)
    requires Consistent(Snapshot(signals, slots))
    ensures forall g | g in signals ::
           (forall t | t in g.direct :: t in slots) && (forall t | t in g.queued :: t in slots)
    ensures forall t | t in slots :: forall g | g in t.connected :: g in signals
  {
    var x := Snapshot(signals, slots);
    assert forall g | g in signals :: x.direct[g] == g.direct && x.queued[g] == g.queued;
    assert forall t | t in slots :: x.connected[t] == t.connected;
  }

  lemma Known<T>(s: seq<T>)
    ensures forall i | 0 <= i < |s| :: s[i] in AsSet(s)
  {}

  lemma Made(x: Graph, e: Event)
    requires Consistent(x) && match e
      case MakeSignal(g) => g !in x.direct
      case MakeSlot(t) => t !in x.connected
      case _ => false
    ensures Legal(x, e) && Consistent(Step(x, e))
  {
    MakeKeeps(x, e);
  }

  /** Whatever the script, the objects that live at its end are consistent. */
  method Play(script: seq<Command>) returns (signals: seq<Signal>, slots: seq<Slot>)
    ensures Consistent(Snapshot(AsSet(signals), AsSet(slots)))
  {
    signals, slots := [], [];
    var k := 0;
    assert Distinct(signals) && Distinct(slots) && Consistent(Snapshot(AsSet(signals), AsSet(slots)));
    hide Distinct, Consistent, Snapshot, AsSet;
    while k < |script|
      invariant 0 <= k <= |script|
      invariant Distinct(signals) && Distinct(slots) && fresh(AsSet(signals)) && fresh(AsSet(slots))
      invariant Consistent(Snapshot(AsSet(signals), AsSet(slots)))
    {
      signals, slots := Perform(script[k], signals, slots);
      k := k + 1;
    }
  }

  method Perform(c: Command, signals: seq<Signal>, slots: seq<Slot>) returns (signals': seq<Signal>, slots': seq<Slot>)
    requires Distinct(signals) && Distinct(slots) && Consistent(Snapshot(AsSet(signals), AsSet(slots)))
    modifies AsSet(signals), AsSet(slots)
    ensures Distinct(signals') && Distinct(slots') && Consistent(Snapshot(AsSet(signals'), AsSet(slots')))
    ensures fresh(AsSet(signals') - AsSet(signals)) && fresh(AsSet(slots') - AsSet(slots))
  {
    hide *;
    ghost var gs, ts := AsSet(signals), AsSet(slots);
    ghost var x := Snapshot(gs, ts);
    Domains(gs, ts);
    Known(signals);
    Known(slots);
    signals', slots' := signals, slots;
    match c {
      case NewSignal(parent) =>
        var g := new Signal(parent);
        WithSignal(gs, ts, g);
        Made(x, MakeSignal(g));
        More(signals, g);
        signals' := signals + [g];
      case NewSlot(parent) =>
        var t := new Slot(parent);
        WithSlot(gs, ts, t);
        Made(x, MakeSlot(t));
        More(slots, t);
        slots' := slots + [t];
      case ConnectThem(i, j, kind, caller) =>
        if i < |signals| && j < |slots| {
          ConnectKeeps(x, signals[i], slots[j], Placement(signals[i].parent, slots[j].parent, kind, caller) == Queued);
          signals[i].Connect(slots[j], kind, caller, gs, ts);
        }
      case DisconnectSignal(i) =>
        if i < |signals| {
          Neighbours(gs, ts);
          SignalKeeps(x, signals[i]);
          signals[i].DisconnectAll(gs, ts);
        }
      case DisconnectThem(i, j) =>
        if i < |signals| && j < |slots| {
          OnceKeeps(x, signals[i], slots[j]);
          signals[i].Disconnect(slots[j], gs, ts);
        }
      case DeleteSignal(i) =>
        if i < |signals| {
          Neighbours(gs, ts);
          SignalKeeps(x, signals[i]);
          Cut(signals, i);
          signals[i].Destroy(gs, ts);
          signals' := signals[..i] + signals[i + 1..];
        }
      case DeleteSlot(j) =>
        if j < |slots| {
          Neighbours(gs, ts);
          SlotKeeps(x, slots[j]);
          Cut(slots, j);
          slots[j].Destroy(gs, ts);
          slots' := slots[..j] + slots[j + 1..];
        }
    }
  }
}
