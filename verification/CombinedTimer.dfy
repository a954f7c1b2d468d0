/** combined_timer's methods, updating its map in place, proved against CombinedTimerSpec. */
module CombinedTimer {
  import opened CombinedTimerSpec

  class CombinedTimer {
    var lastTimerId: int
    var timeKeeperMap: map<int, TimerData>
    var stopped: bool

    /** The timers as a value. */
    function Abs(): Timers
      reads this
    {
      Timers(lastTimerId, timeKeeperMap, stopped)
    }

    constructor ()
      ensures Abs() == INITIAL
    {
      lastTimerId, timeKeeperMap, stopped := 0, map[], true;
    }

    method AddTimer(duration: nat, periodic: bool, now: Time) returns (id: int)
      modifies this
      ensures Abs() == Add(old(Abs()), duration, periodic, now) && id == old(lastTimerId)
    {
      stopped := true;
      var data := TimerData(periodic, lastTimerId, duration, now + duration);
      lastTimerId := Int16(lastTimerId + 1);
      timeKeeperMap := timeKeeperMap[data.id := data];
      stopped := false;
      return data.id;
    }

    method StopTimer(timerId: int) returns (found: bool)
      modifies this
      ensures Abs() == Stop(old(Abs()), timerId) && found == (timerId in old(timeKeeperMap))
    {
      if timerId !in timeKeeperMap { return false; }
      stopped := true;
      timeKeeperMap := timeKeeperMap - {timerId};
      stopped := false;
      return true;
    }

    /** `order` is the order of iteration. The search returns the earliest timer, the first of equals. */
    method GetClosestTimerId(order: seq<int>) returns (closest: int)
      requires Visits(order, timeKeeperMap)
      requires forall id | id in timeKeeperMap :: timeKeeperMap[id].id == id
      ensures closest == Closest(timeKeeperMap, order)
      ensures if timeKeeperMap == map[] then closest == -1 else closest in timeKeeperMap
      ensures forall id | id in timeKeeperMap :: timeKeeperMap[closest].expiration <= timeKeeperMap[id].expiration
    {
      ClosestKnown(timeKeeperMap, order);
      if timeKeeperMap == map[] { return -1; }
      assert order != [] by {
        var id :| id in timeKeeperMap;
        assert id in order;
      }
      assert forall k | 0 <= k < |order| :: order[k] in order;
      closest := timeKeeperMap[order[0]].id;
      var closestDate := timeKeeperMap[order[0]].expiration;
      assert order[..1] == [order[0]];
      var i := 1;
      while i < |order|
        invariant 1 <= i <= |order|
        invariant closest == Closest(timeKeeperMap, order[..i])
        invariant closest in timeKeeperMap && closestDate == timeKeeperMap[closest].expiration
      {
        assert order[..i + 1][..i] == order[..i];
        if timeKeeperMap[order[i]].expiration < closestDate {
          closest := order[i];
          closestDate := timeKeeperMap[order[i]].expiration;
        }
        i := i + 1;
      }
      assert order[..i] == order;
    }

    /** The body of the thread's loop; `now` and `later` are its two readings of the clock. */
    method RunOnce(order: seq<int>, now: Time, later: Time) returns (emitted: seq<int>)
      requires Visits(order, timeKeeperMap) && !stopped
      requires forall id | id in timeKeeperMap :: timeKeeperMap[id].id == id
      modifies this
      ensures var closest := Closest(old(timeKeeperMap), order);
              && (closest == -1 || closest in old(timeKeeperMap))
              && Abs() == Turn(old(Abs()), closest, later)
              && emitted == if closest == -1 then [] else [closest]
    {
      var closest := GetClosestTimerId(order);
      if closest == -1 {
        stopped := true;
        return [];
      }
      var timer := timeKeeperMap[closest];
      emitted := [timer.id];
      if !timer.periodic {
        timeKeeperMap := timeKeeperMap - {timer.id};
      } else {
        timeKeeperMap := timeKeeperMap[closest := timer.(expiration := later + timer.duration)];
      }
    }
  }

  function Ids(fired: seq<Firing>): (ids: seq<int>)
    ensures |ids| == |fired| && forall i | 0 <= i < |fired| :: ids[i] == fired[i].id
  {
    seq(|fired|, i requires 0 <= i < |fired| => fired[i].id)
  }

  lemma OrderedIds(s: System)
    requires Inv(s)
    ensures forall id | id in s.timers.pending :: s.timers.pending[id].id == id
  {}

  /** One call or turn does to the object what the step does to the value. */
  method Obey(timer: CombinedTimer, ghost s: System, e: Event, before: seq<int>) returns (emitted: seq<int>)
    requires timer.Abs() == s.timers && Inv(s) && Legal(s, e) && before == Ids(s.fired)
    modifies timer
    ensures timer.Abs() == Step(s, e).timers && emitted == Ids(Step(s, e).fired)
  {
    OrderedIds(s);
    hide Inv, Visits, Closest, Int16;
    match e {
      case AddTimer(duration, periodic, at) =>
        var _ := timer.AddTimer(duration, periodic, at);
        return before;
      case StopTimer(id) =>
        var _ := timer.StopTimer(id);
        return before;
      case Loop(order, at, later) =>
        var ids := timer.RunOnce(order, at, later);
        return before + ids;
    }
  }

  /**
    The timer object driven by any legal sequence of calls and turns ends in the state of the run
    of the specification, having emitted exactly the timers that run fired, in that order.
   */
  method Drive(clock: Time, events: seq<Event>) returns (timer: CombinedTimer, emitted: seq<int>)
    requires LegalRun(Start(clock), events)
    ensures timer.Abs() == Run(Start(clock), events).timers && emitted == Ids(Run(Start(clock), events).fired)
    ensures Inv(Run(Start(clock), events))
  {
    timer := new CombinedTimer();
    emitted := [];
    ghost var now := Start(clock);
    var i := 0;
    while i < |events|
      invariant 0 <= i <= |events|
      invariant timer.Abs() == now.timers && emitted == Ids(now.fired) && Inv(now) && fresh(timer)
      invariant LegalRun(now, events[i..]) && Run(now, events[i..]) == Run(Start(clock), events)
    {
      hide Inv, Step, Legal;
      assert events[i..][0] == events[i] && events[i..][1..] == events[i + 1..];
      StepKeeps(now, events[i]);
      emitted := Obey(timer, now, events[i], emitted);
      now := Step(now, events[i]);
      i := i + 1;
    }
  }
}
