/** The TCP server's table updates in place, proved against TcpServerSpec. */
module TcpServer {
  import opened TcpServerSpec

  class TcpServer {
    const socketList: array<PollFd>
    var emptyIndexSet: set<int>
    var socketFdIndexMap: map<Fd, int>
    var activeConnections: map<Fd, Socket>
    var socketFdTimerIdMap: map<Fd, TimerId>
    var timerIdSocketFdMap: map<TimerId, Fd>
    /** The ids of `_timer` still to fire. */
    var pendingTimers: set<TimerId>

    function AbsSlots(): Slots
      reads this, socketList
    {
      Slots(socketList[..], emptyIndexSet, socketFdIndexMap, activeConnections)
    }

    function AbsLinks(): Links
      reads this
    {
      Links(socketFdTimerIdMap, timerIdSocketFdMap, pendingTimers)
    }

    function Abs(): Tables
      reads this, socketList
    {
      Tables(AbsSlots(), AbsLinks())
    }

    /** The tables as `run` sets them up. */
    constructor (maxConnectionSize: nat, serverSD: Fd)
      requires maxConnectionSize > 0
      ensures Fresh(AbsSlots()) && AbsLinks() == Links(map[], map[], {})
      ensures fresh(socketList) && socketList.Length == maxConnectionSize && socketList[0].fd == serverSD
      ensures forall i | 0 <= i < socketList.Length :: socketList[i].events == POLLIN
    {
      socketList := new PollFd[maxConnectionSize](i => PollFd(0, 0, 0));
      emptyIndexSet, socketFdIndexMap, activeConnections := {}, map[], map[];
      socketFdTimerIdMap, timerIdSocketFdMap, pendingTimers := map[], map[], {};
      new;
      socketList[0] := PollFd(serverSD, POLLIN, socketList[0].revents);
      var i := 1;
      while i < maxConnectionSize
        invariant 1 <= i <= maxConnectionSize
        invariant forall k :: k in emptyIndexSet <==> 1 <= k < i
        invariant forall k | 1 <= k < i :: socketList[k].fd == -1
        invariant forall k | 0 <= k < i :: socketList[k].events == POLLIN
        invariant socketList[0].fd == serverSD
        invariant socketFdIndexMap == map[] && activeConnections == map[] && AbsLinks() == Links(map[], map[], {})
      {
        socketList[i] := PollFd(-1, POLLIN, socketList[i].revents);
        emptyIndexSet := emptyIndexSet + {i};
        i := i + 1;
      }
    }

    /** `results` are what `accept` gives out, `ids` the ids the timer would. */
    method ProcessSockets(results: seq<int>, ids: seq<TimerId>, passIds: seq<TimerId>) returns (ok: bool)
      requires InRange(AbsSlots()) && socketList.Length > 0 && |ids| >= |results|
             && |passIds| >= |socketFdIndexMap| + |results|
      modifies this, socketList
      ensures Passed(Abs(), ok) == Process(old(Abs()), results, ids, passIds)
    {
      SizeBound(Abs(), results, ids);
      if socketList[0].revents == POLLIN {
        ok := AcceptNewConnections(results, ids);
        if !ok { return false; }
      } else if socketList[0].revents == 0 {
      } else {
        return false;
      }
      ok := ProcessClients(passIds);
    }

    method AcceptNewConnections(results: seq<int>, ids: seq<TimerId>) returns (ok: bool)
      requires InRange(AbsSlots()) && |ids| >= |results|
      modifies this, socketList
      ensures Passed(Abs(), ok) == AcceptNew(old(Abs()), results, ids)
    {
      if emptyIndexSet == {} { return false; }
      var k := 0;
      while k < |results|
        invariant 0 <= k <= |results| && InRange(AbsSlots())
        invariant AcceptAll(Abs(), results[k..], ids[k..]) == AcceptAll(old(Abs()), results, ids)
      {
        assert results[k..][0] == results[k] && results[k..][1..] == results[k + 1..];
        assert ids[k..][0] == ids[k] && ids[k..][1..] == ids[k + 1..];
        if results[k] > 0 {
          var added := AddNewConnection(results[k], ids[k]);
        } else if results[k] == -1 {
          return true;
        } else {
          return false;
        }
        k := k + 1;
      }
      return true;
    }

    /** The loop over the clients, on the map as it stands when the loop begins. */
    method ProcessClients(ids: seq<TimerId>) returns (ok: bool)
      requires InRange(AbsSlots()) && |ids| >= |socketFdIndexMap|
      modifies this, socketList
      ensures Passed(Abs(), ok)
           == ClientPass(old(Abs()), Ascending(old(socketFdIndexMap).Keys), old(socketFdIndexMap), ids)
    {
      hide ClientPass, AtEntry, Ascending;
      var index := socketFdIndexMap;
      var order := Ascending(index.Keys);
      ghost var was := Abs();
      AscendingTracks(was.slots);
      assert order[0..] == order && ids[0..] == ids;
      var k := 0;
      while k < |order|
        invariant 0 <= k <= |order| && InRange(AbsSlots())
        invariant ClientPass(Abs(), order[k..], index, ids[k..]) == ClientPass(was, order, index, ids)
      {
        PassStep(Abs(), order, index, ids, k);
        var socketD := order[k];
        var entry := socketList[index[socketD]];
        if socketD != entry.fd { return false; }
        if entry.revents != 0 {
          ProcessEvents(entry, ids[k]);
        }
        k := k + 1;
      }
      PassEnds(Abs(), index, ids[k..]);
      return true;
    }

    /** Data and the end of a connection can be reported together. */
    method ProcessEvents(entry: PollFd, id: TimerId)
      requires InRange(AbsSlots())
      modifies this, socketList
      ensures Abs() == AtEntry(old(Abs()), entry, id)
    {
      if HasIn(entry.revents) {
        var received := NewIncomingData(entry.fd, id);
      }
      if HasHup(entry.revents) {
        ConnectionClosed(entry.fd);
      }
    }

    /** The connection whose timeout this is, to be disconnected. */
    method TimeoutOnSocket(timerId: TimerId) returns (disconnect: Option)
      ensures disconnect == Expired(Abs(), timerId)
    {
      if timerId !in timerIdSocketFdMap { return None; }
      var socketDescriptor := timerIdSocketFdMap[timerId];
      if socketDescriptor !in activeConnections { return None; }
      return Some(activeConnections[socketDescriptor].descriptor);
    }

    method AddNewConnection(socketDescriptor: Fd, id: TimerId) returns (ok: bool)
      requires InRange(AbsSlots())
      modifies this, socketList
      ensures Abs() == AddConnection(old(Abs()), socketDescriptor, id)
      ensures ok == (old(emptyIndexSet) != {} && socketDescriptor !in old(activeConnections))
    {
      if emptyIndexSet == {} { return false; }
      var added := AddToSocketList(socketDescriptor);
      added := AddToActiveConnections(Socket(socketDescriptor));
      if !added { return false; }
      StartTimeoutTimer(socketDescriptor, id);
      return true;
    }

    method NewIncomingData(socketDescriptor: Fd, id: TimerId) returns (ok: bool)
      modifies this
      ensures AbsSlots() == old(AbsSlots()) && Abs() == IncomingData(old(Abs()), socketDescriptor, id)
      ensures ok == (socketDescriptor in old(activeConnections))
    {
      if socketDescriptor !in activeConnections { return false; }
      var stopped := StopTimeoutTimer(socketDescriptor);
      StartTimeoutTimer(socketDescriptor, id);
      return true;
    }

    method ConnectionClosed(socketDescriptor: Fd)
      requires InRange(AbsSlots())
      modifies this, socketList
      ensures Abs() == Close(old(Abs()), socketDescriptor)
    {
      var removed := RemoveFromSocketList(socketDescriptor);
      var stopped := StopTimeoutTimer(socketDescriptor);
      removed := RemoveFromActiveConnections(socketDescriptor);
    }

    method AddToSocketList(socketFd: Fd) returns (ok: bool)
      requires InRange(AbsSlots())
      modifies `emptyIndexSet, `socketFdIndexMap, socketList
      ensures ok == (old(emptyIndexSet) != {})
      ensures AbsSlots() == if ok then AddToList(old(AbsSlots()), socketFd) else old(AbsSlots())
    {
      if emptyIndexSet == {} { return false; }
      var firstIndex := Least(emptyIndexSet);
      socketList[firstIndex] := socketList[firstIndex].(fd := socketFd);
      socketList[firstIndex] := socketList[firstIndex].(events := POLLIN);
      socketFdIndexMap := socketFdIndexMap[socketFd := firstIndex];
      emptyIndexSet := emptyIndexSet - {firstIndex};
      return true;
    }

    method RemoveFromSocketList(socketFd: Fd) returns (ok: bool)
      requires InRange(AbsSlots())
      modifies `emptyIndexSet, `socketFdIndexMap, socketList
      ensures ok == (socketFd in old(socketFdIndexMap)) && AbsSlots() == RemoveFromList(old(AbsSlots()), socketFd)
    {
      if socketFd !in socketFdIndexMap { return false; }
      var index := socketFdIndexMap[socketFd];
      socketList[index] := socketList[index].(fd := -1);
      emptyIndexSet := emptyIndexSet + {index};
      socketFdIndexMap := socketFdIndexMap - {socketFd};
      return true;
    }

    method AddToActiveConnections(socket: Socket) returns (ok: bool)
      modifies `activeConnections
      ensures ok == (socket.descriptor !in old(activeConnections))
      ensures activeConnections == if ok then old(activeConnections)[socket.descriptor := socket]
             else old(activeConnections)
    {
      if socket.descriptor in activeConnections { return false; }
      activeConnections := activeConnections[socket.descriptor := socket];
      return true;
    }

    method RemoveFromActiveConnections(socketDescriptor: Fd) returns (ok: bool)
      modifies `activeConnections
      ensures ok == (socketDescriptor in old(activeConnections))
             && activeConnections == old(activeConnections) - {socketDescriptor}
    {
      if socketDescriptor !in activeConnections {
        assert activeConnections - {socketDescriptor} == activeConnections;
        return false;
      }
      activeConnections := activeConnections - {socketDescriptor};
      return true;
    }

    method StartTimeoutTimer(socketDescriptor: Fd, id: TimerId)
      modifies `socketFdTimerIdMap, `timerIdSocketFdMap, `pendingTimers
      ensures AbsLinks() == Start(old(AbsLinks()), socketDescriptor, id)
    {
      pendingTimers := pendingTimers + {id};
      socketFdTimerIdMap := socketFdTimerIdMap[socketDescriptor := id];
      timerIdSocketFdMap := timerIdSocketFdMap[id := socketDescriptor];
    }

    method StopTimeoutTimer(socketDescriptor: Fd) returns (ok: bool)
      modifies `socketFdTimerIdMap, `timerIdSocketFdMap, `pendingTimers
      ensures AbsLinks() == Stop(old(AbsLinks()), socketDescriptor)
      ensures ok == (socketDescriptor in old(socketFdTimerIdMap)
             && old(socketFdTimerIdMap)[socketDescriptor] in old(pendingTimers))
    {
      if socketDescriptor !in socketFdTimerIdMap { return false; }
      var id := socketFdTimerIdMap[socketDescriptor];
      if id !in pendingTimers { return false; }
      pendingTimers := pendingTimers - {id};
      socketFdTimerIdMap := socketFdTimerIdMap - {socketDescriptor};
      timerIdSocketFdMap := timerIdSocketFdMap - {id};
      return true;
    }
  }

  /** The method or, for a timer, the effect that an event stands for. */
  method Obey(server: TcpServer, e: Event)
    requires InRange(server.Abs().slots)
    modifies server, server.socketList
    ensures server.Abs() == Step(old(server.Abs()), e)
  {
    match e {
      case Accepted(fd, id) => var added := server.AddNewConnection(fd, id);
      case Data(fd, id) => var received := server.NewIncomingData(fd, id);
      case HangUp(fd) => server.ConnectionClosed(fd);
      case TimerFires(id) => server.pendingTimers := server.pendingTimers - {id};
    }
  }

  lemma NextEvent(t: Tables, events: seq<Event>, i: nat)
    requires i < |events| && Inv(t) && LegalRun(t, events[i..])
    ensures Legal(t, events[i]) && Inv(Step(t, events[i])) && LegalRun(Step(t, events[i]), events[i + 1..])
    ensures Run(t, events[i..]) == Run(Step(t, events[i]), events[i + 1..])
  {
    assert events[i..][0] == events[i] && events[i..][1..] == events[i + 1..];
    StepKeeps(t, events[i]);
    hide Legal, Step, Inv;
  }

  lemma RunEnds(t: Tables, events: seq<Event>)
    requires InRange(t.slots)
    ensures Run(t, events[|events|..]) == t
  {}

  lemma InvInRange(t: Tables)
    requires Inv(t)
    ensures InRange(t.slots)
  {}

  /**
    The server object driven by any legal events, from setup or later, ends in the tables of the
    run, so what every run keeps holds of the object.
   */
  method Drive(server: TcpServer, events: seq<Event>)
    requires Inv(server.Abs()) && LegalRun(server.Abs(), events)
    modifies server, server.socketList
    ensures server.Abs() == Run(old(server.Abs()), events) && Inv(server.Abs())
  {
    hide *;
    ghost var start := server.Abs();
    InvInRange(start);
    assert events[0..] == events;
    var i := 0;
    while i < |events|
      invariant 0 <= i <= |events| && Inv(server.Abs()) && InRange(server.Abs().slots)
      invariant LegalRun(server.Abs(), events[i..]) && Run(server.Abs(), events[i..]) == Run(start, events)
    {
      NextEvent(server.Abs(), events, i);
      Obey(server, events[i]);
      InvInRange(server.Abs());
      i := i + 1;
    }
    RunEnds(server.Abs(), events);
  }
}
