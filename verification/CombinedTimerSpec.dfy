/** Many timers on one thread, the earliest always next: the steps on values and what runs keep. */
module CombinedTimerSpec {
  import Maps

  type Time = int

  datatype TimerData = TimerData(periodic: bool, id: int, duration: nat, expiration: Time)

  datatype Timers = Timers(lastId: int, pending: map<int, TimerData>, stopped: bool)

  /** `n` in 16-bit two's complement. */
  function Int16(n: int): int {
    (n + 0x8000) % 0x1_0000 - 0x8000
  }

  const INITIAL := Timers(0, map[], true)

  function Add(t: Timers, duration: nat, periodic: bool, now: Time): Timers {
    Timers(Int16(t.lastId + 1), t.pending[t.lastId := TimerData(periodic, t.lastId, duration, now + duration)], false)
  }

  function Stop(t: Timers, id: int): Timers {
    if id in t.pending then t.(pending := t.pending - {id}, stopped := false) else t
  }

  /** `order` is the order in which iterating over the map visits the ids. */
  ghost predicate Visits(order: seq<int>, pending: map<int, TimerData>) {
    && (forall id :: id in order <==> id in pending)
    && (forall i, j | 0 <= i < j < |order| :: order[i] != order[j])
  }

  /** The id the minimum search ends with: the first of the earliest ones in `order`. */
  function Closest(pending: map<int, TimerData>, order: seq<int>): int
    requires forall id | id in order :: id in pending
  {
    if order == [] then -1
    else if |order| == 1 then order[0]
    else
      var last := order[|order| - 1];
      var best := Closest(pending, order[..|order| - 1]);
      if best in pending && pending[last].expiration < pending[best].expiration then last else best
  }

  lemma {:induction false} ClosestIsEarliest(pending: map<int, TimerData>, order: seq<int>)
    requires order != [] && forall id | id in order :: id in pending
    ensures Closest(pending, order) in order
    ensures forall id | id in order :: pending[Closest(pending, order)].expiration <= pending[id].expiration
  {
    if |order| > 1 {
      var before := order[..|order| - 1];
      ClosestIsEarliest(pending, before);
      assert forall id | id in order :: id in before || id == order[|order| - 1];
      assert Closest(pending, before) in order;
    }
  }

  /**
    One turn of the timer thread's loop: the closest timer's date has come at `now`, and a
    periodic one is dated anew at `later`. The id -1 is taken for "no timer".
   */
  function Turn(t: Timers, closest: int, later: Time): Timers
    requires closest != -1 ==> closest in t.pending
  {
    if closest == -1 then t.(stopped := true)
    else
      var data := t.pending[closest];
      if data.periodic then t.(pending := t.pending[closest := data.(expiration := later + data.duration)])
      else t.(pending := t.pending - {data.id})
  }

  // ---- runs

  /** What fired, its date, when it did, and the reading of the clock behind it. */
  datatype Firing = Firing(id: int, periodic: bool, duration: nat, date: Time, at: Time, again: Time)

  /** The timers, the clock, what fired so far, and how many timers were added, stopped and overwritten. */
  datatype System = System(timers: Timers, clock: Time, fired: seq<Firing>, adds: nat, stops: nat, overwrites: nat)

  datatype Event =
    | AddTimer(duration: nat, periodic: bool, now: Time)
    | StopTimer(id: int)
    | Loop(order: seq<int>, now: Time, later: Time)

  function Fires(id: int, data: TimerData, at: Time, again: Time): Firing {
    Firing(id, data.periodic, data.duration, data.expiration, at, again)
  }

  function Start(clock: Time): System { System(INITIAL, clock, [], 0, 0, 0) }

  /** The clock never goes back, and the thread's wait ends no sooner than the date waited for. */
  ghost predicate Legal(s: System, e: Event) {
    match e
    case AddTimer(_, _, now) => s.clock <= now
    case StopTimer(_) => true
    case Loop(order, now, later) =>
      && !s.timers.stopped && s.clock <= now <= later && Visits(order, s.timers.pending)
      && var closest := Closest(s.timers.pending, order);
         closest in s.timers.pending && closest != -1 ==> s.timers.pending[closest].expiration <= now
  }

  function Step(s: System, e: Event): System
    requires Legal(s, e)
  {
    var t := s.timers;
    match e
    case AddTimer(duration, periodic, now) =>
      s.(timers := Add(t, duration, periodic, now), clock := now, adds := s.adds + 1,
         overwrites := if t.lastId in t.pending then s.overwrites + 1 else s.overwrites)
    case StopTimer(id) =>
      s.(timers := Stop(t, id), stops := if id in t.pending then s.stops + 1 else s.stops)
    case Loop(order, now, later) =>
      ClosestKnown(t.pending, order);
      var closest := Closest(t.pending, order);
      s.(timers := Turn(t, closest, later), clock := later,
         fired := if closest == -1 then s.fired else s.fired + [Fires(closest, t.pending[closest], now, later)])
  }

  lemma ClosestKnown(pending: map<int, TimerData>, order: seq<int>)
    requires Visits(order, pending)
    ensures if pending == map[] then Closest(pending, order) == -1 else Closest(pending, order) in pending
    ensures forall id | id in pending :: pending[Closest(pending, order)].expiration <= pending[id].expiration
  {
    if order != [] {
      ClosestIsEarliest(pending, order);
    } else {
      assert forall id :: id in pending <==> id in order;
      assert pending.Keys == {};
    }
  }

  ghost predicate LegalRun(s: System, events: seq<Event>)
    decreases |events|
  {
    events == [] || (Legal(s, events[0]) && LegalRun(Step(s, events[0]), events[1..]))
  }

  ghost function Run(s: System, events: seq<Event>): System
    requires LegalRun(s, events)
    decreases |events|
  {
    if events == [] then s else Run(Step(s, events[0]), events[1..])
  }

  // ---- invariants

  /** Every date waiting is at least every date fired, and the past is in order. */
  ghost predicate Ordered(s: System) {
    && (forall id | id in s.timers.pending :: s.timers.pending[id].id == id)
    && (forall i, j | 0 <= i <= j < |s.fired| :: s.fired[i].date <= s.fired[j].date && s.fired[i].at <= s.fired[j].at)
    && (forall i | 0 <= i < |s.fired| :: s.fired[i].date <= s.fired[i].at <= s.clock)
    && (forall i, id | 0 <= i < |s.fired| && id in s.timers.pending ::
          s.fired[i].date <= s.timers.pending[id].expiration)
  }

  /** The ids given out count up from 0 in 16 bits. */
  ghost predicate Counted(s: System) {
    && s.timers.lastId == Int16(s.adds)
    && (forall id | id in s.timers.pending :: exists n :: 0 <= n < s.adds && id == Int16(n))
    && (s.adds <= 0x1_0000 ==> s.overwrites == 0)
  }

  function OneShots(fired: seq<Firing>): nat {
    if fired == [] then 0
    else OneShots(fired[..|fired| - 1]) + if fired[|fired| - 1].periodic then 0 else 1
  }

  ghost predicate Conserved(s: System) {
    |s.timers.pending| + OneShots(s.fired) + s.stops + s.overwrites == s.adds
  }

  /** The thread has ended only with no timer waiting, or with timer -1 as the closest. */
  ghost predicate StopsRightly(t: Timers) {
    t.stopped ==> t.pending == map[] || (-1 in t.pending && forall id | id in t.pending ::
        t.pending[-1].expiration <= t.pending[id].expiration)
  }

  ghost predicate Inv(s: System) {
    Ordered(s) && Counted(s) && Conserved(s) && StopsRightly(s.timers)
  }

  lemma AddKeeps(s: System, duration: nat, periodic: bool, now: Time)
    requires Inv(s) && s.clock <= now
    ensures Inv(Step(s, AddTimer(duration, periodic, now)))
  {
    AddKeepsCounted(s, duration, periodic, now);
    AddKeepsOrdered(s, duration, periodic, now);
    hide Counted, Ordered, Int16, OneShots;
    var t := s.timers;
    Maps.Put(t.pending, t.lastId, TimerData(periodic, t.lastId, duration, now + duration));
  }

  lemma AddKeepsOrdered(s: System, duration: nat, periodic: bool, now: Time)
    requires Ordered(s) && s.clock <= now
    ensures Ordered(Step(s, AddTimer(duration, periodic, now)))
  {}

  lemma AddKeepsCounted(s: System, duration: nat, periodic: bool, now: Time)
    requires Counted(s) && s.clock <= now
    ensures Counted(Step(s, AddTimer(duration, periodic, now)))
  {
    var t, s' := s.timers, Step(s, AddTimer(duration, periodic, now));
    if s.adds < 0x1_0000 { FreshIds(s); }
    NextInt16(s.adds);
    hide Int16;
    forall id | id in s'.timers.pending ensures exists n :: 0 <= n < s'.adds && id == Int16(n) {
      if id == t.lastId {
        assert id == Int16(s.adds);
      } else {
        var n :| 0 <= n < s.adds && id == Int16(n);
        assert 0 <= n < s'.adds && id == Int16(n);
      }
    }
  }

  lemma NextInt16(n: int)
    ensures Int16(Int16(n) + 1) == Int16(n + 1)
  {}

  lemma LastInt16()
    ensures Int16(0xFFFF) == -1
  {}

  lemma Int16Apart(m: int, n: int)
    requires m < n < m + 0x1_0000
    ensures Int16(m) != Int16(n)
  {}

  /** Until the ids have gone once around, the next one is not in use. */
  lemma FreshIds(s: System)
    requires Counted(s) && s.adds < 0x1_0000
    ensures s.timers.lastId !in s.timers.pending
  {
    forall n | 0 <= n < s.adds ensures Int16(n) != Int16(s.adds) {
      Int16Apart(n, s.adds);
    }
  }

  lemma StopKeeps(s: System, id: int)
    requires Inv(s)
    ensures Inv(Step(s, StopTimer(id)))
  {
    Maps.Drop(s.timers.pending, id);
  }

  lemma TurnKeepsOrder(s: System, order: seq<int>, now: Time, later: Time)
    requires Ordered(s) && Legal(s, Loop(order, now, later))
    ensures Ordered(Step(s, Loop(order, now, later)))
  {
    ClosestKnown(s.timers.pending, order);
    hide Closest, Visits;
  }

  lemma TurnKeepsCount(s: System, order: seq<int>, now: Time, later: Time)
    requires Inv(s) && Legal(s, Loop(order, now, later))
    ensures var s' := Step(s, Loop(order, now, later)); Counted(s') && Conserved(s')
  {
    hide Closest, Int16;
    var t := s.timers;
    var closest := Closest(t.pending, order);
    ClosestKnown(t.pending, order);
    hide Visits;
    if closest != -1 {
      var data := t.pending[closest];
      Maps.Put(t.pending, closest, data.(expiration := later + data.duration));
      Maps.Drop(t.pending, data.id);
      var f := Fires(closest, data, now, later);
      assert (s.fired + [f])[..|s.fired|] == s.fired;
    }
  }

  lemma TurnStopsRightly(s: System, order: seq<int>, now: Time, later: Time)
    requires Legal(s, Loop(order, now, later))
    ensures StopsRightly(Step(s, Loop(order, now, later)).timers)
  {
    ClosestKnown(s.timers.pending, order);
    hide Closest, Visits;
  }

  lemma StepKeeps(s: System, e: Event)
    requires Inv(s) && Legal(s, e)
    ensures Inv(Step(s, e))
  {
    hide Step, Ordered, Counted, Conserved, StopsRightly;
    match e
    case AddTimer(duration, periodic, now) => AddKeeps(s, duration, periodic, now);
    case StopTimer(id) => StopKeeps(s, id);
    case Loop(order, now, later) =>
      TurnKeepsOrder(s, order, now, later);
      TurnKeepsCount(s, order, now, later);
      TurnStopsRightly(s, order, now, later);
  }

  lemma {:induction false} RunKeeps(s: System, events: seq<Event>)
    requires Inv(s) && LegalRun(s, events)
    ensures Inv(Run(s, events))
    decreases |events|
  {
    hide Step, Inv, Legal;
    if events != [] {
      StepKeeps(s, events[0]);
      RunKeeps(Step(s, events[0]), events[1..]);
    }
  }

  /**
    As long as ids are not reused: what fired before and waits, or fires again, is a periodic timer
    that lets its duration pass after each firing.
   */
  ghost predicate Spaced(s: System) {
    && (forall i | 0 <= i < |s.fired| :: exists n :: 0 <= n < s.adds && s.fired[i].id == Int16(n))
    && (forall i, j | 0 <= i < j < |s.fired| && s.fired[i].id == s.fired[j].id ::
          s.fired[i].periodic && s.fired[j].date >= s.fired[i].at + s.fired[i].duration)
    && (forall i | 0 <= i < |s.fired| && s.fired[i].id in s.timers.pending ::
          Rearmed(s.fired[i], s.timers.pending[s.fired[i].id]))
  }

  predicate Rearmed(f: Firing, data: TimerData) {
    f.periodic && data.periodic && data.duration == f.duration && data.expiration >= f.at + f.duration
  }

  lemma AddKeepsSpaced(s: System, duration: nat, periodic: bool, now: Time)
    requires Inv(s) && Spaced(s) && s.adds < 0x1_0000 && s.clock <= now
    ensures Spaced(Step(s, AddTimer(duration, periodic, now)))
  {
    var s' := Step(s, AddTimer(duration, periodic, now));
    forall i | 0 <= i < |s.fired|
      ensures s.fired[i].id != s.timers.lastId && exists n :: 0 <= n < s'.adds && s.fired[i].id == Int16(n)
    {
      var n :| 0 <= n < s.adds && s.fired[i].id == Int16(n);
      Int16Apart(n, s.adds);
      assert 0 <= n < s'.adds && s.fired[i].id == Int16(n);
    }
  }

  lemma TurnKeepsSpaced(s: System, order: seq<int>, now: Time, later: Time)
    requires Inv(s) && Spaced(s) && Legal(s, Loop(order, now, later))
    ensures Spaced(Step(s, Loop(order, now, later)))
  {
    ClosestKnown(s.timers.pending, order);
    hide Closest, Visits, Int16;
    var t := s.timers;
    var closest := Closest(t.pending, order);
    if closest != -1 {
      assert exists n :: 0 <= n < s.adds && closest == Int16(n);
      assert forall i | 0 <= i < |s.fired| && s.fired[i].id == closest :: Rearmed(s.fired[i], t.pending[closest]);
    }
  }

  lemma {:induction false} RunKeepsSpaced(s: System, events: seq<Event>)
    requires Inv(s) && LegalRun(s, events) && (s.adds <= 0x1_0000 ==> Spaced(s))
    ensures Run(s, events).adds <= 0x1_0000 ==> Spaced(Run(s, events))
    decreases |events|
  {
    if events != [] {
      StepKeeps(s, events[0]);
      var next := Step(s, events[0]);
      if next.adds <= 0x1_0000 {
        match events[0]
        case AddTimer(duration, periodic, now) => AddKeepsSpaced(s, duration, periodic, now);
        case StopTimer(_) =>
        case Loop(order, now, later) => TurnKeepsSpaced(s, order, now, later);
      }
      hide Inv, Step, Legal, Spaced;
      RunKeepsSpaced(next, events[1..]);
    }
  }

  // ---- what was asked for

  /** A timer asked for at a time. */
  datatype Ask = Ask(duration: nat, periodic: bool, at: Time)

  /** The timers asked for, in order. */
  function Asks(events: seq<Event>): seq<Ask> {
    if events == [] then []
    else
      var e := events[0];
      (if e.AddTimer? then [Ask(e.duration, e.periodic, e.now)] else []) + Asks(events[1..])
  }

  /**
    When timer `id` is due next: its duration after it was asked for or, once it has fired, after
    the clock was read behind its last firing.
   */
  function Due(fired: seq<Firing>, id: int, ask: Ask): Time {
    if fired == [] then ask.at + ask.duration
    else
      var last := fired[|fired| - 1];
      if last.id == id then last.again + ask.duration else Due(fired[..|fired| - 1], id, ask)
  }

  lemma {:induction false} DueFirstTime(fired: seq<Firing>, id: int, ask: Ask)
    requires forall i | 0 <= i < |fired| :: fired[i].id != id
    ensures Due(fired, id, ask) == ask.at + ask.duration
  {
    if fired != [] { DueFirstTime(fired[..|fired| - 1], id, ask); }
  }

  lemma DueNext(fired: seq<Firing>, f: Firing, id: int, ask: Ask)
    ensures Due(fired + [f], id, ask) == if f.id == id then f.again + ask.duration else Due(fired, id, ask)
  {
    assert (fired + [f])[..|fired|] == fired;
  }

  /** The timers waiting are as they were asked for, each at the date it is due. */
  ghost predicate WaitsAsAsked(s: System, asks: seq<Ask>) {
    forall n | 0 <= n < |asks| && Int16(n) in s.timers.pending ::
      s.timers.pending[Int16(n)]
      == TimerData(asks[n].periodic, Int16(n), asks[n].duration, Due(s.fired, Int16(n), asks[n]))
  }

  /** Each firing was of a timer as it was asked for, and its date was the one that was due. */
  ghost predicate FiredAsAsked(fired: seq<Firing>, asks: seq<Ask>) {
    forall i, n | 0 <= i < |fired| && 0 <= n < |asks| && fired[i].id == Int16(n) ::
      && fired[i].periodic == asks[n].periodic && fired[i].duration == asks[n].duration
      && fired[i].date == Due(fired[..i], Int16(n), asks[n])
  }

  /** `id` is among the first ones given out. */
  ghost predicate Given(id: int, adds: nat) {
    exists n :: 0 <= n < adds && id == Int16(n)
  }

  lemma GivenStill(id: int, adds: nat, more: nat)
    requires Given(id, adds) && adds <= more
    ensures Given(id, more)
  {
    var n :| 0 <= n < adds && id == Int16(n);
    assert 0 <= n < more && id == Int16(n);
  }

  /** Only timers asked for have fired. */
  ghost predicate FiredKnown(s: System) {
    forall i | 0 <= i < |s.fired| :: Given(s.fired[i].id, s.adds)
  }

  ghost predicate AsAsked(s: System, asks: seq<Ask>) {
    |asks| == s.adds && FiredKnown(s) && WaitsAsAsked(s, asks) && FiredAsAsked(s.fired, asks)
  }

  lemma NotFiredYet(s: System)
    requires FiredKnown(s) && s.adds < 0x1_0000
    ensures forall i | 0 <= i < |s.fired| :: s.fired[i].id != Int16(s.adds)
  {
    forall i | 0 <= i < |s.fired| ensures s.fired[i].id != Int16(s.adds) {
      var n :| 0 <= n < s.adds && s.fired[i].id == Int16(n);
      Int16Apart(n, s.adds);
    }
  }

  lemma AddAsAsked(s: System, asks: seq<Ask>, duration: nat, periodic: bool, now: Time)
    requires Counted(s) && AsAsked(s, asks) && s.adds < 0x1_0000 && s.clock <= now
    ensures AsAsked(Step(s, AddTimer(duration, periodic, now)), asks + [Ask(duration, periodic, now)])
  {
    var s', ask := Step(s, AddTimer(duration, periodic, now)), Ask(duration, periodic, now);
    NotFiredYet(s);
    MoreKnown(s, s');
    OneMoreWaits(s, s', asks, ask);
    OneMoreAsked(s.fired, asks, ask);
    hide WaitsAsAsked, FiredAsAsked, FiredKnown, Int16;
  }

  lemma OneMoreWaits(s: System, s': System, asks: seq<Ask>, ask: Ask)
    requires WaitsAsAsked(s, asks) && |asks| == s.adds < 0x1_0000 && s'.fired == s.fired
    requires forall i | 0 <= i < |s.fired| :: s.fired[i].id != Int16(s.adds)
    requires var id := Int16(s.adds);
             s'.timers.pending
             == s.timers.pending[id := TimerData(ask.periodic, id, ask.duration, ask.at + ask.duration)]
    ensures WaitsAsAsked(s', asks + [ask])
  {
    DueFirstTime(s.fired, Int16(s.adds), ask);
    forall n | 0 <= n < s.adds ensures Int16(n) != Int16(s.adds) { Int16Apart(n, s.adds); }
    hide Int16, Due;
  }

  lemma OneMoreAsked(fired: seq<Firing>, asks: seq<Ask>, ask: Ask)
    requires FiredAsAsked(fired, asks) && forall i | 0 <= i < |fired| :: fired[i].id != Int16(|asks|)
    ensures FiredAsAsked(fired, asks + [ask])
  {
    hide Int16, Due;
  }

  lemma MoreKnown(s: System, s': System)
    requires FiredKnown(s) && s'.fired == s.fired && s'.adds >= s.adds
    ensures FiredKnown(s')
  {
    hide Given;
    forall i | 0 <= i < |s.fired| ensures Given(s'.fired[i].id, s'.adds) {
      GivenStill(s.fired[i].id, s.adds, s'.adds);
    }
  }

  lemma StopAsAsked(s: System, asks: seq<Ask>, id: int)
    requires AsAsked(s, asks)
    ensures AsAsked(Step(s, StopTimer(id)), asks)
  {
    FewerAsAsked(s, Step(s, StopTimer(id)), asks);
    hide AsAsked;
  }

  /** Fewer timers waiting, and nothing else fired. */
  lemma FewerAsAsked(s: System, s': System, asks: seq<Ask>)
    requires AsAsked(s, asks) && s'.fired == s.fired && s'.adds == s.adds
    requires forall id | id in s'.timers.pending ::
           id in s.timers.pending && s'.timers.pending[id] == s.timers.pending[id]
    ensures AsAsked(s', asks)
  {
    hide Int16, Due, Given;
  }

  lemma TurnAsAsked(s: System, asks: seq<Ask>, order: seq<int>, now: Time, later: Time)
    requires Counted(s) && AsAsked(s, asks) && s.adds <= 0x1_0000 && Legal(s, Loop(order, now, later))
    ensures AsAsked(Step(s, Loop(order, now, later)), asks)
  {
    ClosestKnown(s.timers.pending, order);
    hide Closest, Visits;
    var closest := Closest(s.timers.pending, order);
    hide AsAsked;
    if closest != -1 {
      CountedKnows(s, closest);
      FiringAsAsked(s, asks, closest, now, later);
    } else {
      FewerAsAsked(s, Step(s, Loop(order, now, later)), asks);
    }
  }

  lemma CountedKnows(s: System, id: int)
    requires Counted(s) && id in s.timers.pending
    ensures exists n :: 0 <= n < s.adds && id == Int16(n)
  {}

  lemma FiringAsAsked(s: System, asks: seq<Ask>, id: int, now: Time, later: Time)
    requires Counted(s) && AsAsked(s, asks) && s.adds <= 0x1_0000 && id in s.timers.pending && id != -1
    ensures var f := Fires(id, s.timers.pending[id], now, later);
            AsAsked(s.(timers := Turn(s.timers, id, later), clock := later, fired := s.fired + [f]), asks)
  {
    var f := Fires(id, s.timers.pending[id], now, later);
    var fired := s.fired + [f];
    var n :| 0 <= n < s.adds && id == Int16(n);
    forall m | 0 <= m < s.adds && m != n ensures Int16(m) != id {
      if m < n { Int16Apart(m, n); } else { Int16Apart(n, m); }
    }
    forall m | 0 <= m < s.adds ensures Due(fired, Int16(m), asks[m])
        == if m == n then later + asks[m].duration else Due(s.fired, Int16(m), asks[m])
    {
      DueNext(s.fired, f, Int16(m), asks[m]);
    }
    assert fired[..|s.fired|] == s.fired;
    assert forall i | 0 <= i < |s.fired| :: fired[..i] == s.fired[..i];
    hide Int16, Due;
  }

  lemma {:induction false} RunAsAsked(s: System, asks: seq<Ask>, events: seq<Event>)
    requires Inv(s) && LegalRun(s, events) && (s.adds <= 0x1_0000 ==> AsAsked(s, asks)) && |asks| == s.adds
    ensures Run(s, events).adds <= 0x1_0000 ==> AsAsked(Run(s, events), asks + Asks(events))
    ensures Run(s, events).adds == s.adds + |Asks(events)|
    decreases |events|
  {
    NothingMore(asks);
    if events != [] {
      var e, next := events[0], Step(s, events[0]);
      StepKeeps(s, e);
      var more := if e.AddTimer? then [Ask(e.duration, e.periodic, e.now)] else [];
      if next.adds <= 0x1_0000 { StepAsAsked(s, asks, e); }
      StepAdds(s, e);
      hide Inv, Step, Legal, AsAsked;
      RunAsAsked(next, asks + more, events[1..]);
      assert asks + more + Asks(events[1..]) == asks + (more + Asks(events[1..]));
    }
  }

  lemma NothingMore<T>(s: seq<T>)
    ensures s + [] == s
  {}

  lemma StepAdds(s: System, e: Event)
    requires Legal(s, e)
    ensures Step(s, e).adds == s.adds + if e.AddTimer? then 1 else 0
  {}

  lemma StepAsAsked(s: System, asks: seq<Ask>, e: Event)
    requires Inv(s) && AsAsked(s, asks) && Legal(s, e) && Step(s, e).adds <= 0x1_0000
    ensures AsAsked(Step(s, e), asks + if e.AddTimer? then [Ask(e.duration, e.periodic, e.now)] else [])
  {
    NothingMore(asks);
    StepAdds(s, e);
    hide Step, AsAsked;
    match e
    case AddTimer(duration, periodic, now) => AddAsAsked(s, asks, duration, periodic, now);
    case StopTimer(id) => StopAsAsked(s, asks, id);
    case Loop(order, now, later) => TurnAsAsked(s, asks, order, now, later);
  }

  // ---- main results

  /**
    Over every run of up to 65536 timers, the `n`-th timer asked for has the `n`-th id, and waits or
    fires with the duration and the period asked for: first its duration after it was asked for, and
    then its duration after the clock was read behind the firing before.
   */
  lemma FiresAsAsked(clock: Time, events: seq<Event>, n: nat)
    requires LegalRun(Start(clock), events) && n < |Asks(events)| <= 0x1_0000
    ensures var s, ask, id := Run(Start(clock), events), Asks(events)[n], Int16(n);
            && s.adds == |Asks(events)|
            && (id in s.timers.pending ==>
                  s.timers.pending[id] == TimerData(ask.periodic, id, ask.duration, Due(s.fired, id, ask)))
            && (forall i | 0 <= i < |s.fired| && s.fired[i].id == id ::
                  && s.fired[i].periodic == ask.periodic && s.fired[i].duration == ask.duration
                  && s.fired[i].date == Due(s.fired[..i], id, ask)
                  && s.fired[i].at >= ask.at + ask.duration)
  {
    var s, ask, id := Run(Start(clock), events), Asks(events)[n], Int16(n);
    RunAsAsked(Start(clock), [], events);
    RunKeeps(Start(clock), events);
    assert [] + Asks(events) == Asks(events);
    hide Run, LegalRun, Asks, Int16, Due, Inv;
    AskedAlone(s, Asks(events), n);
    PastInOrder(s);
    hide AsAsked;
    forall i | 0 <= i < |s.fired| && s.fired[i].id == id ensures s.fired[i].at >= ask.at + ask.duration {
      FirstIsLeast(s.fired, i, id, ask);
    }
  }

  lemma AskedAlone(s: System, asks: seq<Ask>, n: nat)
    requires AsAsked(s, asks) && n < |asks|
    ensures var ask, id := asks[n], Int16(n);
            && (id in s.timers.pending ==>
                  s.timers.pending[id] == TimerData(ask.periodic, id, ask.duration, Due(s.fired, id, ask)))
            && (forall i | 0 <= i < |s.fired| && s.fired[i].id == id ::
                  && s.fired[i].periodic == ask.periodic && s.fired[i].duration == ask.duration
                  && s.fired[i].date == Due(s.fired[..i], id, ask))
  {
    hide Int16, Due;
  }

  lemma PastInOrder(s: System)
    requires Inv(s)
    ensures forall j, k | 0 <= j <= k < |s.fired| :: s.fired[j].at <= s.fired[k].at
    ensures forall j | 0 <= j < |s.fired| :: s.fired[j].date <= s.fired[j].at
  {
    hide Counted, Conserved, StopsRightly;
  }

  /** No date due is before the first. */
  lemma {:induction false} FirstIsLeast(fired: seq<Firing>, i: nat, id: int, ask: Ask)
    requires i < |fired| && fired[i].id == id && fired[i].date == Due(fired[..i], id, ask)
    requires forall j, k | 0 <= j <= k < |fired| :: fired[j].at <= fired[k].at
    requires forall j | 0 <= j < |fired| :: fired[j].date <= fired[j].at
    requires forall j | 0 <= j < |fired| && fired[j].id == id :: fired[j].date == Due(fired[..j], id, ask)
    ensures fired[i].at >= ask.at + ask.duration
  {
    if exists j :: 0 <= j < i && fired[j].id == id {
      var j :| 0 <= j < i && fired[j].id == id;
      FirstIsLeast(fired, j, id, ask);
    } else {
      DueFirstTime(fired[..i], id, ask);
    }
  }

  /** The id `id` is not given out in the run. */
  ghost predicate NotGiven(s: System, events: seq<Event>, id: int) {
    forall n | s.adds <= n < s.adds + |Asks(events)| :: Int16(n) != id
  }

  lemma StepStaysSilent(s: System, e: Event, id: int, before: nat)
    requires Counted(s) && Legal(s, e) && id !in s.timers.pending && (e.AddTimer? ==> Int16(s.adds) != id)
    requires before <= |s.fired| && forall i | before <= i < |s.fired| :: s.fired[i].id != id
    ensures var s' := Step(s, e);
            id !in s'.timers.pending && |s'.fired| >= before && forall i | before <= i < |s'.fired| ::
                s'.fired[i].id != id
  {
    if e.Loop? { ClosestKnown(s.timers.pending, e.order); }
    hide Closest, Visits, Int16;
  }

  /** A timer that does not wait does not fire, until its id is given out again. */
  lemma {:induction false} StaysSilent(s: System, events: seq<Event>, id: int, before: nat)
    requires Inv(s) && LegalRun(s, events) && id !in s.timers.pending && NotGiven(s, events, id)
    requires before <= |s.fired| && forall i | before <= i < |s.fired| :: s.fired[i].id != id
    ensures id !in Run(s, events).timers.pending
    ensures forall i | before <= i < |Run(s, events).fired| :: Run(s, events).fired[i].id != id
    decreases |events|
  {
    if events != [] {
      StepKeeps(s, events[0]);
      StepStaysSilent(s, events[0], id, before);
      StepAdds(s, events[0]);
      hide Step, Inv, Legal, Int16;
      StaysSilent(Step(s, events[0]), events[1..], id, before);
    }
  }

  /** Over every run of up to 65536 timers, a timer stopped fires no more. */
  lemma StoppedFiresNoMore(clock: Time, events: seq<Event>, n: nat, more: seq<Event>)
    requires LegalRun(Start(clock), events) && n < |Asks(events)| && |Asks(events)| + |Asks(more)| <= 0x1_0000
    requires LegalRun(Step(Run(Start(clock), events), StopTimer(Int16(n))), more)
    ensures var s := Run(Start(clock), events);
            var s' := Run(Step(s, StopTimer(Int16(n))), more);
            && Int16(n) !in s'.timers.pending
            && forall i | |s.fired| <= i < |s'.fired| :: s'.fired[i].id != Int16(n)
  {
    RunKeeps(Start(clock), events);
    RunAsAsked(Start(clock), [], events);
    var s := Run(Start(clock), events);
    var t := Step(s, StopTimer(Int16(n)));
    StepKeeps(s, StopTimer(Int16(n)));
    forall m | t.adds <= m < t.adds + |Asks(more)| ensures Int16(m) != Int16(n) { Int16Apart(n, m); }
    hide Run, LegalRun, Inv, Int16, Asks;
    StaysSilent(t, more, Int16(n), |s.fired|);
  }

  /** A call that changes the timers leaves the thread running; only a turn ends it. */
  lemma CallsRunThread(s: System, e: Event)
    requires Legal(s, e) && !e.Loop?
    ensures Step(s, e).timers.stopped <==> s.timers.stopped && e.StopTimer? && e.id !in s.timers.pending
  {}

  /**
    Up to 65536 timers, when a timer fires twice it is periodic, and the second date is at least its
    duration after the first firing: a one-shot timer fires once at most, a periodic one never early.
   */
  lemma FiringsAreSpaced(clock: Time, events: seq<Event>, i: nat, j: nat)
    requires LegalRun(Start(clock), events)
    requires var s := Run(Start(clock), events);
           s.adds <= 0x1_0000 && i < j < |s.fired| && s.fired[i].id == s.fired[j].id
    ensures var s := Run(Start(clock), events);
            s.fired[i].periodic && s.fired[j].at >= s.fired[j].date >= s.fired[i].at + s.fired[i].duration
  {
    RunKeeps(Start(clock), events);
    RunKeepsSpaced(Start(clock), events);
  }

  /** Dates fire in order, none before its time, and none waits that is earlier than one fired. */
  lemma DeadlineOrder(clock: Time, events: seq<Event>)
    requires LegalRun(Start(clock), events)
    ensures var s := Run(Start(clock), events);
            && (forall i, j | 0 <= i < j < |s.fired| :: s.fired[i].date <= s.fired[j].date)
            && (forall i | 0 <= i < |s.fired| :: s.fired[i].date <= s.fired[i].at)
            && (forall i, id | 0 <= i < |s.fired| && id in s.timers.pending ::
                  s.fired[i].date <= s.timers.pending[id].expiration)
  {
    RunKeeps(Start(clock), events);
  }

  /** Every timer added still waits, fired as a one-shot, was stopped, or was overwritten; nothing else. */
  lemma NoTimerVanishes(clock: Time, events: seq<Event>)
    requires LegalRun(Start(clock), events)
    ensures var s := Run(Start(clock), events);
            |s.timers.pending| + OneShots(s.fired) + s.stops + s.overwrites == s.adds
  {
    RunKeeps(Start(clock), events);
  }

  /** Up to 65536 timers, no id is given out while in use, so none is overwritten. */
  lemma IdsAreFresh(clock: Time, events: seq<Event>)
    requires LegalRun(Start(clock), events)
    ensures var s := Run(Start(clock), events);
            && (s.adds <= 0x1_0000 ==> s.overwrites == 0)
            && (s.adds < 0x1_0000 ==> s.timers.lastId !in s.timers.pending)
  {
    RunKeeps(Start(clock), events);
    var s := Run(Start(clock), events);
    if s.adds < 0x1_0000 { FreshIds(s); }
  }

  /**
    Over every run, adding overwrites a timer if and only if one waits whose number among all added
    agrees with it in 16 bits.
   */
  lemma AddOverwritesIff(clock: Time, events: seq<Event>, duration: nat, periodic: bool, now: Time)
    requires LegalRun(Start(clock), events) && Run(Start(clock), events).clock <= now
    ensures var s := Run(Start(clock), events);
            var more := if Int16(s.adds) in s.timers.pending then 1 else 0;
            Step(s, AddTimer(duration, periodic, now)).overwrites == s.overwrites + more
  {
    RunKeeps(Start(clock), events);
    hide Run, LegalRun, Ordered, Conserved, StopsRightly, Int16;
  }

  /** The bound is exact: the timer after the 65536th overwrites one if and only if the first is still waiting. */
  lemma ReuseOverwritesIff(clock: Time, events: seq<Event>, duration: nat, periodic: bool, now: Time)
    requires LegalRun(Start(clock), events)
    requires Run(Start(clock), events).adds == 0x1_0000 && Run(Start(clock), events).clock <= now
    ensures var s := Run(Start(clock), events);
            Step(s, AddTimer(duration, periodic, now)).overwrites == if 0 in s.timers.pending then 1 else 0
  {
    AddOverwritesIff(clock, events, duration, periodic, now);
    RunKeeps(Start(clock), events);
    assert Int16(0x1_0000) == 0;
    hide Run, LegalRun, Ordered, Conserved, StopsRightly, Step;
  }

  /**
    A turn ends the thread if and only if no timer waits, or timer -1 waits and is due first: its
    date is before those of the timers visited ahead of it and no later than those visited behind it.
   */
  lemma ThreadEndsIff(s: System, order: seq<int>, now: Time, later: Time)
    requires Legal(s, Loop(order, now, later))
    ensures Step(s, Loop(order, now, later)).timers.stopped
       <==> s.timers.pending == map[] || (-1 in s.timers.pending && DueFirst(s.timers.pending, order, -1))
  {
    var pending := s.timers.pending;
    ClosestKnown(pending, order);
    assert forall i | 0 <= i < |order| :: order[i] in order;
    if order != [] {
      ClosestIsFirst(pending, order);
      assert pending != map[] by { assert order[0] in order; }
      if -1 in pending && DueFirst(pending, order, -1) { DueFirstUnique(pending, order, Closest(pending, order), -1); }
    } else {
      assert forall id :: id in pending <==> id in order;
      assert pending.Keys == {};
    }
  }

  /** `id` is earlier than every timer visited ahead of it and no later than any visited behind it. */
  ghost predicate DueFirst(pending: map<int, TimerData>, order: seq<int>, id: int)
    requires id in pending && forall i | 0 <= i < |order| :: order[i] in pending
  {
    exists k :: 0 <= k < |order| && order[k] == id && DueAt(pending, order, k)
  }

  ghost predicate DueAt(pending: map<int, TimerData>, order: seq<int>, k: nat)
    requires k < |order| && forall i | 0 <= i < |order| :: order[i] in pending
  {
    && (forall j | 0 <= j < k :: pending[order[k]].expiration < pending[order[j]].expiration)
    && (forall j | k < j < |order| :: pending[order[k]].expiration <= pending[order[j]].expiration)
  }

  lemma {:induction false} ClosestIsFirst(pending: map<int, TimerData>, order: seq<int>)
    requires order != [] && (forall i | 0 <= i < |order| :: order[i] in pending)
           && (forall id | id in order :: id in pending)
    ensures Closest(pending, order) in pending && DueFirst(pending, order, Closest(pending, order))
  {
    if |order| == 1 {
      assert DueAt(pending, order, 0);
    } else {
      var n := |order| - 1;
      var before := order[..n];
      ClosestIsFirst(pending, before);
      var k :| 0 <= k < n && before[k] == Closest(pending, before) && DueAt(pending, before, k);
      DueAtNext(pending, order, k);
    }
  }

  /** One timer more is due first if its date is earlier than that of the first before. */
  lemma DueAtNext(pending: map<int, TimerData>, order: seq<int>, k: nat)
    requires |order| > 1 && k < |order| - 1 && forall i | 0 <= i < |order| :: order[i] in pending
    requires DueAt(pending, order[..|order| - 1], k)
    ensures if pending[order[|order| - 1]].expiration < pending[order[k]].expiration
            then DueAt(pending, order, |order| - 1)
            else DueAt(pending, order, k)
  {
    var before := order[..|order| - 1];
    assert forall i | 0 <= i < |before| :: before[i] == order[i];
  }

  lemma DueFirstUnique(pending: map<int, TimerData>, order: seq<int>, a: int, b: int)
    requires a in pending && b in pending && forall i | 0 <= i < |order| :: order[i] in pending
    requires DueFirst(pending, order, a) && DueFirst(pending, order, b)
    ensures a == b
  {
    var k :| 0 <= k < |order| && order[k] == a && DueAt(pending, order, k);
    var l :| 0 <= l < |order| && order[l] == b && DueAt(pending, order, l);
  }

  // ---- timer -1

  /** No timer with the id -1 has fired. */
  ghost predicate NeverMinusOne(fired: seq<Firing>) {
    forall i | 0 <= i < |fired| :: fired[i].id != -1
  }

  lemma StepNeverFires(s: System, e: Event)
    requires Legal(s, e) && NeverMinusOne(s.fired)
    ensures NeverMinusOne(Step(s, e).fired)
  {
    if e.Loop? { ClosestKnown(s.timers.pending, e.order); }
    hide Closest, Visits;
  }

  /** Over every run, no timer with the id -1 fires. */
  lemma {:induction false} MinusOneNeverFires(s: System, events: seq<Event>)
    requires LegalRun(s, events) && NeverMinusOne(s.fired)
    ensures NeverMinusOne(Run(s, events).fired)
    decreases |events|
  {
    hide Step, Legal, NeverMinusOne;
    if events != [] {
      StepNeverFires(s, events[0]);
      MinusOneNeverFires(Step(s, events[0]), events[1..]);
    }
  }

  /** Timer -1 is neither stopped nor overwritten by the event. */
  ghost predicate Spares(s: System, e: Event) {
    e != StopTimer(-1) && !(e.AddTimer? && s.timers.lastId == -1)
  }

  ghost predicate SparesAll(s: System, events: seq<Event>)
    requires LegalRun(s, events)
    decreases |events|
  {
    events == [] || (Spares(s, events[0]) && SparesAll(Step(s, events[0]), events[1..]))
  }

  /** Every firing from the `n`th on is due no later than `date`. */
  ghost predicate NoneLater(fired: seq<Firing>, n: nat, date: Time) {
    forall i | n <= i < |fired| :: fired[i].date <= date
  }

  lemma StepBlocked(s: System, e: Event, n: nat)
    requires Legal(s, e) && -1 in s.timers.pending && Spares(s, e) && n <= |s.fired|
    requires (forall id | id in s.timers.pending :: s.timers.pending[id].id == id)
           && NoneLater(s.fired, n, s.timers.pending[-1].expiration)
    ensures var s' := Step(s, e);
            && -1 in s'.timers.pending && s'.timers.pending[-1] == s.timers.pending[-1] && |s'.fired| >= n
            && (forall id | id in s'.timers.pending :: s'.timers.pending[id].id == id)
            && NoneLater(s'.fired, n, s.timers.pending[-1].expiration)
  {
    if e.Loop? { ClosestKnown(s.timers.pending, e.order); }
    hide Closest, Visits;
  }

  /**
    As long as timer -1 waits it is in the way: over every run that neither stops nor overwrites it,
    nothing dated later than it fires, and it goes on waiting.
   */
  lemma {:induction false} MinusOneBlocks(s: System, events: seq<Event>, n: nat)
    requires LegalRun(s, events) && -1 in s.timers.pending && SparesAll(s, events) && n <= |s.fired|
    requires (forall id | id in s.timers.pending :: s.timers.pending[id].id == id)
           && NoneLater(s.fired, n, s.timers.pending[-1].expiration)
    ensures var s' := Run(s, events);
            && -1 in s'.timers.pending && s'.timers.pending[-1] == s.timers.pending[-1]
            && NoneLater(s'.fired, n, s.timers.pending[-1].expiration)
    decreases |events|
  {
    hide Step, Legal, NoneLater, Spares;
    if events != [] {
      StepBlocked(s, events[0], n);
      MinusOneBlocks(Step(s, events[0]), events[1..], n);
    }
  }

  /** With fewer than 65536 timers added, the thread never ends while a timer waits. */
  lemma NoneAbandoned(clock: Time, events: seq<Event>)
    requires LegalRun(Start(clock), events)
    ensures var s := Run(Start(clock), events); s.adds < 0x1_0000 && s.timers.stopped ==> s.timers.pending == map[]
  {
    RunKeeps(Start(clock), events);
    var s := Run(Start(clock), events);
    if s.adds < 0x1_0000 {
      LastInt16();
      forall n | 0 <= n < s.adds ensures Int16(n) != -1 {
        Int16Apart(n, 0xFFFF);
      }
    }
  }

  lemma Abandoned(t: Timers, duration: nat, now: Time, later: Time)
    requires t.pending == map[] && t.lastId == -1
    ensures var added := Add(t, duration, false, now);
            && Visits([-1], added.pending) && Closest(added.pending, [-1]) == -1
            && Turn(added, -1, later) == added.(stopped := true) && -1 in added.pending
  {}

  /**
    The bound is exact: the 65536th timer gets the id -1. Alone in the map its thread ends at once,
    and over every run that follows it never fires.
   */
  lemma LastIdIsAbandoned(clock: Time, events: seq<Event>, duration: nat, now: Time, later: Time, more: seq<Event>)
    requires LegalRun(Start(clock), events)
    requires var s := Run(Start(clock), events);
           s.adds == 0xFFFF && s.timers.pending == map[] && s.clock <= now <= later
    requires var t := Step(Run(Start(clock), events), AddTimer(duration, false, now)); LegalRun(t, more)
    ensures var t := Step(Run(Start(clock), events), AddTimer(duration, false, now));
            && -1 in t.timers.pending && Legal(t, Loop([-1], now, later))
            && Step(t, Loop([-1], now, later)).timers == t.timers.(stopped := true)
            && NeverMinusOne(Run(t, more).fired)
  {
    var s := Run(Start(clock), events);
    RunKeeps(Start(clock), events);
    MinusOneNeverFires(Start(clock), events);
    LastInt16();
    hide Int16, Run, LegalRun, Visits, Closest, Ordered, Conserved;
    Abandoned(s.timers, duration, now, later);
    MinusOneNeverFires(Step(s, AddTimer(duration, false, now)), more);
  }
}
