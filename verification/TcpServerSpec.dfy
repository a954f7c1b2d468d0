/** The connection tables of the TCP server, on values: slots, connections and timeout timers. */
module TcpServerSpec {
  import Maps

  type Fd = int
  type TimerId = int

  const POLLIN := 1

  /** `revents & POLLIN`. */
  predicate HasIn(revents: nat) { revents % 2 == 1 }

  /** `revents & POLLHUP`, the bit 0x10. */
  predicate HasHup(revents: nat) { revents / 16 % 2 == 1 }

  /** The two flags by their place in the bits of `revents`. */
  lemma FlagsAre(low: nat, bit: nat, high: nat)
    requires bit < 2
    ensures low < 16 ==> (HasHup(low + 16 * bit + 32 * high) <==> bit == 1)
    ensures HasIn(bit + 2 * high) <==> bit == 1
    ensures HasIn(POLLIN) && !HasHup(POLLIN)
  {
    if low < 16 {
      assert (low + 16 * bit + 32 * high) / 16 == bit + 2 * high;
    }
  }

  datatype PollFd = PollFd(fd: Fd, events: int, revents: nat)

  datatype Socket = Socket(descriptor: Fd)

  /** The poll array, its free indices, the index of each descriptor, and the open connections. */
  datatype Slots = Slots(list: seq<PollFd>, free: set<int>, indexOf: map<Fd, int>, active: map<Fd, Socket>)

  /** The two timer maps, and the timers still to fire. */
  datatype Links = Links(timerOf: map<Fd, TimerId>, fdOf: map<TimerId, Fd>, pending: set<TimerId>)

  datatype Tables = Tables(slots: Slots, links: Links)

  // ---- operations

  lemma LeastExists(s: set<int>)
    requires s != {}
    ensures exists x :: x in s && forall y | y in s :: x <= y
  {
    var x := Maps.Some(s);
    if s == {x} {
      assert forall y | y in s :: x <= y;
    } else {
      LeastExists(s - {x});
      var z :| z in s - {x} && forall y | y in s - {x} :: z <= y;
      var l := if x <= z then x else z;
      assert forall y | y in s :: y == x || y in s - {x};
      assert l in s && forall y | y in s :: l <= y;
    }
  }

  /** The first element of a `std::set`. */
  function Least(s: set<int>): (x: int)
    requires s != {}
    ensures x in s && forall y | y in s :: x <= y
  {
    LeastExists(s);
    var x :| x in s && forall y | y in s :: x <= y;
    x
  }

  predicate InRange(s: Slots) {
    && (forall i | i in s.free :: 0 <= i < |s.list|)
    && (forall fd | fd in s.indexOf :: 0 <= s.indexOf[fd] < |s.list|)
  }

  function AddToList(s: Slots, fd: Fd): Slots
    requires InRange(s) && s.free != {}
  {
    var i := Least(s.free);
    s.(list := s.list[i := s.list[i].(fd := fd, events := POLLIN)], indexOf := s.indexOf[fd := i], free := s.free - {i})
  }

  function RemoveFromList(s: Slots, fd: Fd): Slots
    requires InRange(s)
  {
    if fd !in s.indexOf then s else
      var i := s.indexOf[fd];
      s.(list := s.list[i := s.list[i].(fd := -1)], free := s.free + {i}, indexOf := s.indexOf - {fd})
  }

  /** `id` is what the timer gives out. */
  function Start(l: Links, fd: Fd, id: TimerId): Links {
    Links(l.timerOf[fd := id], l.fdOf[id := fd], l.pending + {id})
  }

  /** Stopping does nothing if the timer has fired already. */
  function Stop(l: Links, fd: Fd): Links {
    if fd in l.timerOf && l.timerOf[fd] in l.pending then
      Links(l.timerOf - {fd}, l.fdOf - {l.timerOf[fd]}, l.pending - {l.timerOf[fd]})
    else l
  }

  /** A full table refuses; a descriptor already tracked is refused after the slot was taken. */
  function AddConnection(t: Tables, fd: Fd, id: TimerId): Tables
    requires InRange(t.slots)
  {
    if t.slots.free == {} then t else
      var s := AddToList(t.slots, fd);
      if fd in s.active then t.(slots := s)
      else Tables(s.(active := s.active[fd := Socket(fd)]), Start(t.links, fd, id))
  }

  function IncomingData(t: Tables, fd: Fd, id: TimerId): Tables {
    if fd !in t.slots.active then t else t.(links := Start(Stop(t.links, fd), fd, id))
  }

  function Close(t: Tables, fd: Fd): Tables
    requires InRange(t.slots)
  {
    var s := RemoveFromList(t.slots, fd);
    Tables(s.(active := s.active - {fd}), Stop(t.links, fd))
  }

  function Fire(t: Tables, id: TimerId): Tables {
    t.(links := t.links.(pending := t.links.pending - {id}))
  }

  /** The keys as iterating over a `std::map` visits them. */
  function Ascending(keys: set<Fd>): (order: seq<Fd>)
    ensures |order| == |keys| && (forall i | 0 <= i < |order| :: order[i] in keys)
           && (forall fd | fd in keys :: fd in order)
    ensures forall i, j | 0 <= i < j < |order| :: order[i] < order[j]
    decreases |keys|
  {
    if keys == {} then [] else
      var rest := Ascending(keys - {Least(keys)});
      LeastAhead(keys, rest);
      [Least(keys)] + rest
  }

  lemma LeastAhead(keys: set<Fd>, rest: seq<Fd>)
    requires keys != {} && |rest| == |keys - {Least(keys)}|
    requires (forall i | 0 <= i < |rest| :: rest[i] in keys - {Least(keys)})
           && (forall fd | fd in keys - {Least(keys)} :: fd in rest)
    requires forall i, j | 0 <= i < j < |rest| :: rest[i] < rest[j]
    ensures var order := [Least(keys)] + rest;
            && |order| == |keys| && (forall i | 0 <= i < |order| :: order[i] in keys)
                  && (forall fd | fd in keys :: fd in order)
            && (forall i, j | 0 <= i < j < |order| :: order[i] < order[j])
  {
    hide Least;
  }

  // ---- slots

  /**
    The array and the maps agree: index 0 is the server's own, every other index is free and
    marked -1, or holds the one descriptor that is mapped to it and has a connection.
   */
  ghost predicate Valid(s: Slots) {
    && InRange(s) && s.list != [] && 0 !in s.free
    && (forall i | i in s.free :: s.list[i].fd == -1)
    && (forall fd | fd in s.indexOf ::
          fd > 0 && s.indexOf[fd] != 0 && s.indexOf[fd] !in s.free && s.list[s.indexOf[fd]].fd == fd)
    && (forall i | 1 <= i < |s.list| :: i in s.free || (s.list[i].fd in s.indexOf && s.indexOf[s.list[i].fd] == i))
    && (forall fd | fd in s.active :: s.active[fd] == Socket(fd))
    && s.active.Keys == s.indexOf.Keys
  }

  /** The table as set up: every index but the first is free. */
  ghost predicate Fresh(s: Slots) {
    && s.list != [] && s.indexOf == map[] && s.active == map[]
    && (forall i :: i in s.free <==> 1 <= i < |s.list|)
    && (forall i | 1 <= i < |s.list| :: s.list[i].fd == -1)
  }

  /** Adding a connection keeps the tables in agreement if and only if its descriptor is not tracked. */
  lemma AddKeepsIff(t: Tables, fd: Fd, id: TimerId)
    requires Valid(t.slots) && t.slots.free != {} && fd > 0
    ensures Valid(AddConnection(t, fd, id).slots) <==> fd !in t.slots.indexOf
  {
    var s, s' := t.slots, AddConnection(t, fd, id).slots;
    var i := Least(s.free);
    if fd in s.indexOf {
      var j := s.indexOf[fd];
      assert s'.list[j].fd == fd && s'.indexOf[fd] == i != j && j !in s'.free;
    } else {
      forall k | 1 <= k < |s'.list|
          ensures k in s'.free || (s'.list[k].fd in s'.indexOf && s'.indexOf[s'.list[k].fd] == k) {
        assert k == i || k in s.free || (s.list[k].fd in s.indexOf && s.indexOf[s.list[k].fd] == k);
      }
    }
  }

  lemma CloseKeeps(t: Tables, fd: Fd)
    requires Valid(t.slots)
    ensures Valid(Close(t, fd).slots)
    ensures Close(t, fd).slots.indexOf == t.slots.indexOf - {fd}
  {
    var s, s' := t.slots, Close(t, fd).slots;
    if fd in s.indexOf {
      var i := s.indexOf[fd];
      forall k | 1 <= k < |s'.list|
          ensures k in s'.free || (s'.list[k].fd in s'.indexOf && s'.indexOf[s'.list[k].fd] == k) {
        assert k == i || k in s.free || (s.list[k].fd in s.indexOf && s.indexOf[s.list[k].fd] == k);
      }
    } else {
      assert s.active - {fd} == s.active && s.indexOf - {fd} == s.indexOf;
    }
  }

  lemma {:induction false} InjectiveSize(m: map<Fd, int>)
    requires forall f, g | f in m && g in m && m[f] == m[g] :: f == g
    ensures |m.Values| == |m|
    decreases |m|
  {
    if m != map[] {
      var f := Maps.Some(m.Keys);
      var n := m - {f};
      Maps.Drop(m, f);
      InjectiveSize(n);
      assert m.Values == n.Values + {m[f]} by {
        forall i | i in m.Values ensures i in n.Values + {m[f]} {
          var g := Maps.KeyOf(m, i);
          assert g == f || (g in n && n[g] == i);
        }
      }
      assert m[f] !in n.Values;
    } else {
      assert m.Values == {};
    }
  }

  lemma {:induction false} RangeSize(s: set<int>, n: nat)
    requires n > 0 && forall i :: i in s <==> 1 <= i < n
    ensures |s| == n - 1
    decreases n
  {
    if n == 1 {
      if s != {} {
        var i := Maps.Some(s);
        assert false;
      }
    } else {
      RangeSize(s - {n - 1}, n - 1);
    }
  }

  lemma UsedOrFree(s: Slots, i: int)
    requires Valid(s)
    ensures i in s.indexOf.Values ==> 1 <= i < |s.list| && i !in s.free
    ensures 1 <= i < |s.list| && i !in s.free ==> i in s.indexOf.Values
  {
    if i in s.indexOf.Values {
      var fd := Maps.KeyOf(s.indexOf, i);
    }
    if 1 <= i < |s.list| && i !in s.free {
      assert s.indexOf[s.list[i].fd] == i;
    }
  }

  lemma OneEach(s: Slots)
    requires Valid(s)
    ensures s.list != [] && forall i | i in s.free :: 1 <= i < |s.list|
    ensures forall f, g | f in s.indexOf && g in s.indexOf && s.indexOf[f] == s.indexOf[g] :: f == g
  {}

  /** Every index but the server's is either free or in use by exactly one descriptor. */
  lemma Partition(s: Slots)
    requires Valid(s)
    ensures forall i | 1 <= i < |s.list| :: i in s.free <==> i !in s.indexOf.Values
    ensures forall i | i in s.indexOf.Values || i in s.free :: 1 <= i < |s.list|
    ensures forall f, g | f in s.indexOf && g in s.indexOf && s.indexOf[f] == s.indexOf[g] :: f == g
    ensures |s.free| + |s.indexOf| == |s.list| - 1
  {
    hide Valid;
    forall i: int ensures i in s.indexOf.Values <==> 1 <= i < |s.list| && i !in s.free { UsedOrFree(s, i); }
    OneEach(s);
    InjectiveSize(s.indexOf);
    RangeSize(s.free + s.indexOf.Values, |s.list|);
  }

  // ---- one pass over the clients

  datatype Passed = Passed(tables: Tables, ok: bool)

  /** `order` lists tracked descriptors, each once. */
  predicate Tracked(s: Slots, order: seq<Fd>) {
    && (forall i | 0 <= i < |order| :: order[i] in s.indexOf && 0 <= s.indexOf[order[i]] < |s.list|)
    && (forall i, j | 0 <= i < j < |order| :: order[i] != order[j])
  }

  /**
    The loop over the descriptors and indices the map held when it began, with the ids the timer
    gives out; it ends early at a descriptor that is not where the map said.
   */
  function ClientPass(t: Tables, order: seq<Fd>, index: map<Fd, int>, ids: seq<TimerId>): (p: Passed)
    requires InRange(t.slots) && |ids| >= |order|
    requires forall i | 0 <= i < |order| :: order[i] in index && 0 <= index[order[i]] < |t.slots.list|
    ensures |p.tables.slots.list| == |t.slots.list| && InRange(p.tables.slots)
    decreases |order|
  {
    if order == [] then Passed(t, true)
    else
      var entry := t.slots.list[index[order[0]]];
      if order[0] != entry.fd then Passed(t, false)
      else ClientPass(AtEntry(t, entry, ids[0]), order[1..], index, ids[1..])
  }

  function AtEntry(t: Tables, entry: PollFd, id: TimerId): (t': Tables)
    requires InRange(t.slots)
    ensures |t'.slots.list| == |t.slots.list| && InRange(t'.slots)
  {
    var u := if HasIn(entry.revents) then IncomingData(t, entry.fd, id) else t;
    if HasHup(entry.revents) then Close(u, entry.fd) else u
  }

  lemma PassStep(t: Tables, order: seq<Fd>, index: map<Fd, int>, ids: seq<TimerId>, k: nat)
    requires InRange(t.slots) && |ids| >= |order| > k
    requires forall i | 0 <= i < |order| :: order[i] in index && 0 <= index[order[i]] < |t.slots.list|
    ensures var entry := t.slots.list[index[order[k]]];
            var rest := ClientPass(AtEntry(t, entry, ids[k]), order[k + 1..], index, ids[k + 1..]);
            ClientPass(t, order[k..], index, ids[k..]) == if order[k] != entry.fd then Passed(t, false) else rest
    ensures t.slots.list[index[order[k]]].revents == 0 ==> AtEntry(t, t.slots.list[index[order[k]]], ids[k]) == t
  {
    assert order[k..][1..] == order[k + 1..] && ids[k..][1..] == ids[k + 1..];
  }

  lemma PassEnds(t: Tables, index: map<Fd, int>, ids: seq<TimerId>)
    requires InRange(t.slots)
    ensures ClientPass(t, [], index, ids) == Passed(t, true)
  {}

  ghost predicate HungUp(s: Slots, fd: Fd)
    requires InRange(s)
  {
    fd in s.indexOf && HasHup(s.list[s.indexOf[fd]].revents)
  }

  /** Between `s` and `s'` exactly the descriptors in `order` that hung up left, each freeing its own index. */
  ghost predicate Left(s: Slots, s': Slots, order: seq<Fd>)
    requires InRange(s)
  {
    && (forall fd :: fd in s'.indexOf <==> fd in s.indexOf && !(fd in order && HungUp(s, fd)))
    && (forall fd | fd in s'.indexOf :: s'.indexOf[fd] == s.indexOf[fd])
    && |s'.list| == |s.list|
    && (forall i :: i in s'.free <==>
          i in s.free || (1 <= i < |s.list| && s.list[i].fd in order && HungUp(s, s.list[i].fd)))
    && (forall i | 0 <= i < |s.list| ::
          s'.list[i] == if i in s'.free && i !in s.free then s.list[i].(fd := -1) else s.list[i])
  }

  lemma AtEntrySlots(t: Tables, fd: Fd, id: TimerId)
    requires Valid(t.slots) && fd in t.slots.indexOf
    ensures var entry := t.slots.list[t.slots.indexOf[fd]];
            var s' := AtEntry(t, entry, id).slots;
            && entry.fd == fd
            && Valid(s') && Left(t.slots, s', [fd])
  {
    CloseLeaves(t, fd);
    CloseLeaves(IncomingData(t, fd, id), fd);
    hide Left, Valid, Close;
  }

  lemma CloseLeaves(t: Tables, fd: Fd)
    requires Valid(t.slots) && fd in t.slots.indexOf
    ensures t.slots.list[t.slots.indexOf[fd]].fd == fd
    ensures Valid(Close(t, fd).slots)
    ensures if HasHup(t.slots.list[t.slots.indexOf[fd]].revents) then Left(t.slots, Close(t, fd).slots, [fd])
           else Left(t.slots, t.slots, [fd])
  {
    CloseKeeps(t, fd);
  }

  lemma {:induction false} PassExact(t: Tables, order: seq<Fd>, index: map<Fd, int>, ids: seq<TimerId>)
    requires Valid(t.slots) && Tracked(t.slots, order) && |ids| >= |order|
    requires forall i | 0 <= i < |order| :: order[i] in index && index[order[i]] == t.slots.indexOf[order[i]]
    ensures var p := ClientPass(t, order, index, ids);
           p.ok && Valid(p.tables.slots) && Left(t.slots, p.tables.slots, order)
    decreases |order|
  {
    hide *;
    AllInRange(t.slots, order, index);
    if order == [] {
      PassEnds(t, index, ids);
      NoneLeft(t.slots);
    } else {
      var fd, rest := order[0], order[1..];
      AtEntrySlots(t, fd, ids[0]);
      var u := AtEntry(t, t.slots.list[index[fd]], ids[0]);
      RestTracked(t.slots, u.slots, order, index);
      PassFirst(t, order, index, ids);
      PassExact(u, rest, index, ids[1..]);
      LeftTwice(t.slots, u.slots, ClientPass(u, rest, index, ids[1..]).tables.slots, order);
    }
  }

  lemma AllInRange(s: Slots, order: seq<Fd>, index: map<Fd, int>)
    requires Valid(s) && Tracked(s, order) && forall i | 0 <= i < |order| ::
           order[i] in index && index[order[i]] == s.indexOf[order[i]]
    ensures InRange(s) && forall i | 0 <= i < |order| :: order[i] in s.indexOf && 0 <= index[order[i]] < |s.list|
  {}

  lemma NoneLeft(s: Slots)
    requires InRange(s)
    ensures Left(s, s, [])
  {}

  lemma RestTracked(s: Slots, u: Slots, order: seq<Fd>, index: map<Fd, int>)
    requires Valid(s) && Tracked(s, order) && order != [] && Valid(u) && Left(s, u, [order[0]])
    requires forall i | 0 <= i < |order| :: order[i] in index && index[order[i]] == s.indexOf[order[i]]
    ensures Tracked(u, order[1..]) && forall i | 0 <= i < |order[1..]| ::
           order[1..][i] in index && index[order[1..][i]] == u.indexOf[order[1..][i]]
    ensures forall i | 0 <= i < |order[1..]| :: 0 <= index[order[1..][i]] < |u.list|
  {
    var fd, rest := order[0], order[1..];
    forall i | 0 <= i < |rest| ensures rest[i] in u.indexOf && u.indexOf[rest[i]] == s.indexOf[rest[i]]
        && 0 <= u.indexOf[rest[i]] < |u.list| {
      assert rest[i] == order[i + 1] != fd;
    }
    hide Left, Valid;
  }

  lemma PassFirst(t: Tables, order: seq<Fd>, index: map<Fd, int>, ids: seq<TimerId>)
    requires InRange(t.slots) && |ids| >= |order| > 0
    requires forall i | 0 <= i < |order| :: order[i] in index && 0 <= index[order[i]] < |t.slots.list|
    requires t.slots.list[index[order[0]]].fd == order[0]
    ensures ClientPass(t, order, index, ids)
         == ClientPass(AtEntry(t, t.slots.list[index[order[0]]], ids[0]), order[1..], index, ids[1..])
  {}

  lemma LeftTwice(s: Slots, u: Slots, s': Slots, order: seq<Fd>)
    requires Valid(s) && Valid(u) && Tracked(s, order) && order != []
    requires Left(s, u, [order[0]]) && Left(u, s', order[1..])
    ensures Left(s, s', order)
  {
    var fd, rest := order[0], order[1..];
    assert forall f :: f in order <==> f == fd || f in rest;
    assert fd !in rest;
    SameHungUp(s, u, fd);
    hide HungUp;
  }

  /** A descriptor still tracked hung up if and only if it did before. */
  lemma SameHungUp(s: Slots, u: Slots, fd: Fd)
    requires Valid(s) && Valid(u) && Left(s, u, [fd])
    ensures forall f | f != fd :: HungUp(u, f) <==> HungUp(s, f)
  {}

  /** `order` leaves no tracked descriptor out. */
  ghost predicate Covers(order: seq<Fd>, s: Slots) {
    forall fd | fd in s.indexOf :: fd in order
  }

  function FullPass(t: Tables, order: seq<Fd>, ids: seq<TimerId>): Passed
    requires InRange(t.slots) && Tracked(t.slots, order) && |ids| >= |order|
  {
    ClientPass(t, order, t.slots.indexOf, ids)
  }

  /**
    One pass reaches its end, and exactly the descriptors flagged POLLHUP leave all tables; every
    other descriptor keeps its index and every other index its entry.
   */
  lemma PassRemovesHungUp(t: Tables, order: seq<Fd>, ids: seq<TimerId>)
    requires Valid(t.slots) && Tracked(t.slots, order) && Covers(order, t.slots) && |ids| >= |order|
    ensures var p := FullPass(t, order, ids);
            var s, s' := t.slots, p.tables.slots;
            && p.ok && Valid(s')
            && (forall fd :: fd in s'.indexOf <==> fd in s.indexOf && !HungUp(s, fd))
            && (forall fd | fd in s'.indexOf ::
                  s'.indexOf[fd] == s.indexOf[fd] && s'.list[s.indexOf[fd]] == s.list[s.indexOf[fd]])
            && s'.active.Keys == s'.indexOf.Keys
            && (forall fd | fd in s.indexOf && HungUp(s, fd) :: s.indexOf[fd] in s'.free)
  {
    PassExact(t, order, t.slots.indexOf, ids);
  }

  // ---- the server's own socket

  /** `accept` gave out `results` one by one; -1 means none is left, and no result that the loop was stopped. */
  function AcceptAll(t: Tables, results: seq<int>, ids: seq<TimerId>): (p: Passed)
    requires InRange(t.slots) && |ids| >= |results|
    ensures |p.tables.slots.list| == |t.slots.list| && InRange(p.tables.slots)
    decreases |results|
  {
    if results == [] || results[0] == -1 then Passed(t, true)
    else if results[0] <= 0 then Passed(t, false)
    else AcceptAll(AddConnection(t, results[0], ids[0]), results[1..], ids[1..])
  }

  function AcceptNew(t: Tables, results: seq<int>, ids: seq<TimerId>): (p: Passed)
    requires InRange(t.slots) && |ids| >= |results|
    ensures |p.tables.slots.list| == |t.slots.list| && InRange(p.tables.slots)
  {
    if t.slots.free == {} then Passed(t, false) else AcceptAll(t, results, ids)
  }

  /** New sockets get descriptors that are not open. */
  ghost predicate NewSockets(s: Slots, results: seq<int>) {
    && (forall i | 0 <= i < |results| :: results[i] !in s.indexOf)
    && (forall i, j | 0 <= i < j < |results| && results[i] > 0 :: results[i] != results[j])
  }

  /** Accepting keeps what is there, and what it adds has the lowest free indices, whose entries it only names. */
  ghost predicate Grown(s: Slots, s': Slots) {
    && (forall fd | fd in s.indexOf :: fd in s'.indexOf && s'.indexOf[fd] == s.indexOf[fd])
    && s'.free <= s.free && |s'.list| == |s.list|
    && (forall fd | fd in s'.indexOf && fd !in s.indexOf :: s'.indexOf[fd] in s.free)
    && (forall i | 0 <= i < |s.list| :: s'.list[i].revents == s.list[i].revents)
    && (s.list != [] ==> s'.list[0] == s.list[0] || 0 in s.free)
  }

  lemma {:induction false} AcceptKeeps(t: Tables, results: seq<int>, ids: seq<TimerId>)
    requires Valid(t.slots) && |ids| >= |results| && NewSockets(t.slots, results)
    ensures var p := AcceptAll(t, results, ids); Valid(p.tables.slots) && Grown(t.slots, p.tables.slots)
    decreases |results|
  {
    if results != [] && results[0] > 0 {
      var u := AddConnection(t, results[0], ids[0]);
      AddGrows(t, results[0], ids[0]);
      RestNew(t.slots, u.slots, results);
      AcceptKeeps(u, results[1..], ids[1..]);
      GrownTwice(t.slots, u.slots, AcceptAll(u, results[1..], ids[1..]).tables.slots);
      hide Valid, Grown, AddConnection;
    } else {
      GrownSelf(t.slots);
    }
  }

  lemma RestNew(s: Slots, u: Slots, results: seq<int>)
    requires results != [] && results[0] > 0 && NewSockets(s, results)
    requires forall f | f in u.indexOf :: f in s.indexOf || f == results[0]
    ensures NewSockets(u, results[1..])
  {
    assert forall i | 0 <= i < |results[1..]| :: results[1..][i] == results[i + 1];
  }

  lemma GrownTwice(s: Slots, u: Slots, s': Slots)
    requires Grown(s, u) && Grown(u, s') && InRange(s)
    ensures Grown(s, s')
  {}

  lemma AddGrows(t: Tables, fd: Fd, id: TimerId)
    requires Valid(t.slots) && fd > 0 && fd !in t.slots.indexOf
    ensures var u := AddConnection(t, fd, id);
            && Valid(u.slots) && Grown(t.slots, u.slots)
            && (forall f | f in u.slots.indexOf :: f in t.slots.indexOf || f == fd)
  {
    if t.slots.free != {} { AddKeepsIff(t, fd, id); }
  }

  /** `poll` reports nothing at an entry without a descriptor. */
  ghost predicate Polled(s: Slots) {
    forall i | 0 <= i < |s.list| && s.list[i].fd < 0 :: s.list[i].revents == 0
  }

  /**
    A connection accepted in a turn survives the pass of that turn, whatever its slot was used for
    before: `u` is what accepting left.
   */
  lemma NewcomersStay(t: Tables, u: Tables, order: seq<Fd>, ids: seq<TimerId>)
    requires Valid(t.slots) && Polled(t.slots) && Valid(u.slots) && Grown(t.slots, u.slots)
    requires Tracked(u.slots, order) && Covers(order, u.slots) && |ids| >= |order|
    ensures forall fd | fd in u.slots.indexOf && fd !in t.slots.indexOf ::
           fd in FullPass(u, order, ids).tables.slots.indexOf
  {
    PassRemovesHungUp(u, order, ids);
    forall fd | fd in u.slots.indexOf && fd !in t.slots.indexOf ensures !HungUp(u.slots, fd) {
      NewcomerQuiet(t.slots, u.slots, fd);
    }
  }

  lemma NewcomerQuiet(s: Slots, s': Slots, fd: Fd)
    requires Valid(s) && Polled(s) && Valid(s') && Grown(s, s') && fd in s'.indexOf && fd !in s.indexOf
    ensures !HungUp(s', fd)
  {
    var i := s'.indexOf[fd];
    assert i in s.free && s.list[i].fd == -1;
  }

  /** The loop over all clients. */
  function WholePass(t: Tables, ids: seq<TimerId>): Passed
    requires InRange(t.slots) && |ids| >= |t.slots.indexOf|
  {
    ClientPass(t, Ascending(t.slots.indexOf.Keys), t.slots.indexOf, ids)
  }

  /** The tables when a call comes to the clients, or gives up. */
  function AtListener(t: Tables, results: seq<int>, ids: seq<TimerId>): Passed
    requires InRange(t.slots) && t.slots.list != [] && |ids| >= |results|
  {
    var revents := t.slots.list[0].revents;
    if revents == POLLIN then AcceptNew(t, results, ids) else Passed(t, revents == 0)
  }

  /** What `processSockets` does after a poll. */
  function Process(t: Tables, results: seq<int>, ids: seq<TimerId>, passIds: seq<TimerId>): Passed
    requires InRange(t.slots) && t.slots.list != [] && |ids| >= |results| && |passIds| >= |t.slots.indexOf| + |results|
  {
    var a := AtListener(t, results, ids);
    if !a.ok then a
    else
      SizeBound(t, results, ids);
      WholePass(a.tables, passIds)
  }

  lemma {:induction false} SizeBound(t: Tables, results: seq<int>, ids: seq<TimerId>)
    requires InRange(t.slots) && |ids| >= |results|
    ensures |AcceptAll(t, results, ids).tables.slots.indexOf| <= |t.slots.indexOf| + |results|
    decreases |results|
  {
    if results != [] && results[0] > 0 {
      if t.slots.free != {} { Maps.Put(t.slots.indexOf, results[0], Least(t.slots.free)); }
      SizeBound(AddConnection(t, results[0], ids[0]), results[1..], ids[1..]);
    }
  }

  /** The first result that is no descriptor, if there is one, is the -1 that says none is left. */
  ghost predicate EndsWell(results: seq<int>) {
    forall i | 0 <= i < |results| && results[i] <= 0 && (forall j | 0 <= j < i :: results[j] > 0) :: results[i] == -1
  }

  lemma {:induction false} AcceptOkIff(t: Tables, results: seq<int>, ids: seq<TimerId>)
    requires InRange(t.slots) && |ids| >= |results|
    ensures AcceptAll(t, results, ids).ok <==> EndsWell(results)
    decreases |results|
  {
    if results != [] {
      if results[0] > 0 {
        AcceptOkIff(AddConnection(t, results[0], ids[0]), results[1..], ids[1..]);
        EndsWellFirst(results);
      } else {
        EndsWellNow(results);
      }
    }
  }

  lemma EndsWellNow(results: seq<int>)
    requires results != [] && results[0] <= 0
    ensures EndsWell(results) <==> results[0] == -1
  {
    assert EndsWell(results) ==> results[0] == -1;
  }

  lemma EndsWellFirst(results: seq<int>)
    requires results != [] && results[0] > 0
    ensures EndsWell(results) <==> EndsWell(results[1..])
  {
    var rest := results[1..];
    if EndsWell(results) {
      forall i | 0 <= i < |rest| && rest[i] <= 0 && (forall j | 0 <= j < i :: rest[j] > 0) ensures rest[i] == -1 {
        assert forall j | 0 < j < i + 1 :: results[j] == rest[j - 1];
        assert results[i + 1] == rest[i];
      }
    }
    if EndsWell(rest) {
      forall i | 0 <= i < |results| && results[i] <= 0 && (forall j | 0 <= j < i :: results[j] > 0)
          ensures results[i] == -1 {
        assert forall j | 0 <= j < i - 1 :: rest[j] == results[j + 1];
        assert rest[i - 1] == results[i];
      }
    }
  }

  /** Nothing happened at the listening socket, or there was room and `accept` ended well. */
  ghost predicate ListenerWell(s: Slots, results: seq<int>)
    requires s.list != []
  {
    s.list[0].revents == 0 || (s.list[0].revents == POLLIN && s.free != {} && EndsWell(results))
  }

  /**
    After a poll, a call keeps the tables valid. It succeeds if and only if all is well at the
    listening socket, and only then looks at the clients: of the old descriptors exactly those
    flagged POLLHUP leave if it succeeds, and none leaves if it fails.
   */
  lemma ProcessKeeps(t: Tables, results: seq<int>, ids: seq<TimerId>, passIds: seq<TimerId>)
    requires Valid(t.slots) && NewSockets(t.slots, results)
    requires |ids| >= |results| && |passIds| >= |t.slots.indexOf| + |results|
    ensures var p := Process(t, results, ids, passIds);
            && Valid(p.tables.slots)
            && (p.ok <==> ListenerWell(t.slots, results))
            && (forall fd | fd in t.slots.indexOf :: fd in p.tables.slots.indexOf <==> !(p.ok && HungUp(t.slots, fd)))
            && (forall fd | fd in t.slots.indexOf && fd in p.tables.slots.indexOf ::
                  p.tables.slots.indexOf[fd] == t.slots.indexOf[fd])
  {
    hide *;
    ValidIs(t.slots);
    var a := AtListener(t, results, ids);
    AtListenerKeeps(t, results, ids);
    GrownFacts(t.slots, a.tables.slots);
    ValidIs(a.tables.slots);
    ProcessIs(t, results, ids, passIds);
    if ListenerWell(t.slots, results) {
      PassAfterAccept(t.slots, a.tables, passIds);
    }
  }

  lemma ValidIs(s: Slots)
    requires Valid(s)
    ensures InRange(s) && s.list != []
  {}

  lemma GrownFacts(s: Slots, s': Slots)
    requires Grown(s, s')
    ensures forall fd | fd in s.indexOf :: fd in s'.indexOf && s'.indexOf[fd] == s.indexOf[fd]
  {}

  lemma AtListenerKeeps(t: Tables, results: seq<int>, ids: seq<TimerId>)
    requires Valid(t.slots) && |ids| >= |results| && NewSockets(t.slots, results)
    ensures var a := AtListener(t, results, ids);
            && Valid(a.tables.slots) && Grown(t.slots, a.tables.slots)
            && (a.ok <==> ListenerWell(t.slots, results))
            && |a.tables.slots.indexOf| <= |t.slots.indexOf| + |results|
  {
    AcceptKeeps(t, results, ids);
    AcceptOkIff(t, results, ids);
    SizeBound(t, results, ids);
    GrownSelf(t.slots);
    hide Grown, AcceptAll, EndsWell;
  }

  lemma ProcessIs(t: Tables, results: seq<int>, ids: seq<TimerId>, passIds: seq<TimerId>)
    requires InRange(t.slots) && t.slots.list != [] && |ids| >= |results| && |passIds| >= |t.slots.indexOf| + |results|
    ensures var a := AtListener(t, results, ids);
            && |passIds| >= |a.tables.slots.indexOf|
            && Process(t, results, ids, passIds) == if !a.ok then a else WholePass(a.tables, passIds)
  {
    SizeBound(t, results, ids);
    hide AcceptAll, ClientPass;
  }

  // ---- a full table

  /** One turn of the server's loop: what `poll` reports for each entry, and what `accept` and the timer give out. */
  datatype Round = Round(revents: seq<nat>, results: seq<int>, ids: seq<TimerId>, passIds: seq<TimerId>)

  function Poll(t: Tables, revents: seq<nat>): Tables
    requires |revents| == |t.slots.list|
  {
    t.(slots := t.slots.(list := seq(|revents|,
        i requires 0 <= i < |revents| => t.slots.list[i].(revents := revents[i]))))
  }

  ghost predicate Fits(t: Tables, round: Round) {
    && InRange(t.slots) && |round.revents| == |t.slots.list| > 0
    && |round.ids| >= |round.results| && |round.passIds| >= |t.slots.indexOf| + |round.results|
  }

  ghost function Turn(t: Tables, round: Round): Passed
    requires Fits(t, round)
  {
    Process(Poll(t, round.revents), round.results, round.ids, round.passIds)
  }

  /** Equal but for what `poll` last reported. */
  ghost predicate SameTables(t: Tables, u: Tables) {
    && u.links == t.links && u.slots.free == t.slots.free && u.slots.indexOf == t.slots.indexOf
          && u.slots.active == t.slots.active
    && |u.slots.list| == |t.slots.list|
    && forall i | 0 <= i < |t.slots.list| ::
          u.slots.list[i].fd == t.slots.list[i].fd && u.slots.list[i].events == t.slots.list[i].events
  }

  /** With the table full and a connection to accept, a turn of the loop looks at no client. */
  lemma FullTableSkips(t: Tables, round: Round)
    requires Fits(t, round) && t.slots.free == {} && round.revents[0] == POLLIN
    ensures !Turn(t, round).ok && SameTables(t, Turn(t, round).tables)
  {}

  /** `states` are the tables before each round and after the last. */
  ghost predicate Turns(states: seq<Tables>, rounds: seq<Round>) {
    |states| == |rounds| + 1 && forall i | 0 <= i < |rounds| ::
        Fits(states[i], rounds[i]) && states[i + 1] == Turn(states[i], rounds[i]).tables
  }

  /**
    A full server with a connection waiting to be accepted stays full: however often it turns, and
    whatever the clients report meanwhile, no descriptor leaves and no data is taken in.
   */
  lemma {:induction false} FullTableStays(states: seq<Tables>, rounds: seq<Round>, n: nat)
    requires Turns(states, rounds) && states[0].slots.free == {}
    requires forall i | 0 <= i < |rounds| :: rounds[i].revents != [] && rounds[i].revents[0] == POLLIN
    requires n <= |rounds|
    ensures SameTables(states[0], states[n])
  {
    if n > 0 {
      FullTableStays(states, rounds, n - 1);
      FullTableSkips(states[n - 1], rounds[n - 1]);
    }
  }

  lemma PassAfterAccept(s: Slots, u: Tables, ids: seq<TimerId>)
    requires Valid(s) && Valid(u.slots) && Grown(s, u.slots) && |ids| >= |u.slots.indexOf|
    ensures var p := WholePass(u, ids);
            && p.ok && Valid(p.tables.slots)
            && (forall fd | fd in s.indexOf :: fd in p.tables.slots.indexOf <==> !HungUp(s, fd))
            && (forall fd | fd in s.indexOf && !HungUp(s, fd) :: p.tables.slots.indexOf[fd] == s.indexOf[fd])
  {
    hide *;
    ValidIs(s);
    ValidIs(u.slots);
    WholePassRemoves(u, ids);
    GrownFacts(s, u.slots);
    forall fd | fd in s.indexOf
      ensures fd in u.slots.indexOf && u.slots.indexOf[fd] == s.indexOf[fd] && (HungUp(u.slots, fd) <==> HungUp(s, fd))
    {
      GrownHung(s, u.slots, fd);
    }
  }

  lemma WholePassRemoves(u: Tables, ids: seq<TimerId>)
    requires Valid(u.slots) && |ids| >= |u.slots.indexOf|
    ensures var p := WholePass(u, ids);
            var s, s' := u.slots, p.tables.slots;
            && p.ok && Valid(s')
            && (forall fd :: fd in s'.indexOf <==> fd in s.indexOf && !HungUp(s, fd))
            && (forall fd | fd in s'.indexOf :: s'.indexOf[fd] == s.indexOf[fd])
  {
    AscendingTracks(u.slots);
    PassRemovesHungUp(u, Ascending(u.slots.indexOf.Keys), ids);
    hide HungUp, ClientPass, Tracked, Covers;
  }

  lemma GrownHung(s: Slots, s': Slots, fd: Fd)
    requires Valid(s) && Valid(s') && Grown(s, s') && fd in s.indexOf
    ensures fd in s'.indexOf && s'.indexOf[fd] == s.indexOf[fd] && (HungUp(s', fd) <==> HungUp(s, fd))
  {}

  lemma AscendingTracks(s: Slots)
    requires InRange(s)
    ensures Tracked(s, Ascending(s.indexOf.Keys)) && Covers(Ascending(s.indexOf.Keys), s)
  {}

  lemma GrownSelf(s: Slots)
    ensures Grown(s, s)
  {}

  // ---- timers

  /** The timer on record for a descriptor is on record as that descriptor's. */
  ghost predicate MapsBack(l: Links) {
    forall fd | fd in l.timerOf :: l.timerOf[fd] in l.fdOf && l.fdOf[l.timerOf[fd]] == fd
  }

  /** The two maps are exact inverses. */
  ghost predicate Inverse(l: Links) {
    MapsBack(l) && forall id | id in l.fdOf :: l.fdOf[id] in l.timerOf && l.timerOf[l.fdOf[id]] == id
  }

  /** No other descriptor has timer `id` on record. */
  ghost predicate NotOthers(l: Links, fd: Fd, id: TimerId) {
    forall f | f in l.timerOf && f != fd :: l.timerOf[f] != id
  }

  lemma StartMapsBackIff(l: Links, fd: Fd, id: TimerId)
    requires MapsBack(l)
    ensures MapsBack(Start(l, fd, id)) <==> NotOthers(l, fd, id)
  {
    var m := Start(l, fd, id);
    if !NotOthers(l, fd, id) {
      var f :| f in l.timerOf && f != fd && l.timerOf[f] == id;
      assert f in m.timerOf && m.fdOf[m.timerOf[f]] == fd;
    }
  }

  lemma StopMapsBack(l: Links, fd: Fd)
    requires MapsBack(l)
    ensures MapsBack(Stop(l, fd))
    ensures forall f | f in Stop(l, fd).timerOf :: f in l.timerOf && Stop(l, fd).timerOf[f] == l.timerOf[f]
  {}

  /** Data arriving keeps the maps inverse if and only if the timer it stops had not fired. */
  lemma DataKeepsInverseIff(l: Links, fd: Fd, id: TimerId)
    requires Inverse(l) && fd in l.timerOf && id !in l.fdOf
    ensures Inverse(Start(Stop(l, fd), fd, id)) <==> l.timerOf[fd] in l.pending
  {
    var m := Start(Stop(l, fd), fd, id);
    if l.timerOf[fd] !in l.pending {
      assert l.timerOf[fd] in m.fdOf && m.timerOf[m.fdOf[l.timerOf[fd]]] == id != l.timerOf[fd];
    }
  }

  datatype Option = None | Some(fd: Fd)

  /** The connection that the handler of a timeout disconnects. */
  function Expired(t: Tables, id: TimerId): Option {
    if id in t.links.fdOf && t.links.fdOf[id] in t.slots.active then
      Some(t.slots.active[t.links.fdOf[id]].descriptor)
    else None
  }

  // ---- runs

  datatype Event =
    | Accepted(fd: Fd, id: TimerId)
    | Data(fd: Fd, id: TimerId)
    | HangUp(fd: Fd)
    | TimerFires(id: TimerId)

  function Step(t: Tables, e: Event): (t': Tables)
    requires InRange(t.slots)
    ensures InRange(t'.slots) && |t'.slots.list| == |t.slots.list|
  {
    match e
    case Accepted(fd, id) => AddConnection(t, fd, id)
    case Data(fd, id) => IncomingData(t, fd, id)
    case HangUp(fd) => Close(t, fd)
    case TimerFires(id) => Fire(t, id)
  }

  /** Accepted descriptors are not open, and a new timer has an id no other descriptor has on record. */
  ghost predicate Legal(t: Tables, e: Event) {
    match e
    case Accepted(fd, id) => fd > 0 && fd !in t.slots.indexOf && NotOthers(t.links, fd, id)
    case Data(fd, id) => NotOthers(t.links, fd, id)
    case HangUp(_) => true
    case TimerFires(_) => true
  }

  ghost predicate LegalRun(t: Tables, events: seq<Event>)
    requires InRange(t.slots)
    decreases |events|
  {
    events == [] || (Legal(t, events[0]) && LegalRun(Step(t, events[0]), events[1..]))
  }

  function Run(t: Tables, events: seq<Event>): Tables
    requires InRange(t.slots)
    decreases |events|
  {
    if events == [] then t else Run(Step(t, events[0]), events[1..])
  }

  lemma {:induction false} RunTwice(t: Tables, a: seq<Event>, b: seq<Event>)
    requires InRange(t.slots)
    ensures InRange(Run(t, a).slots) && Run(t, a + b) == Run(Run(t, a), b)
    decreases |a|
  {
    if a == [] {
      assert a + b == b;
    } else {
      RunTwice(Step(t, a[0]), a[1..], b);
      assert (a + b)[1..] == a[1..] + b;
    }
  }

  /** The events that the entry of one descriptor reports. */
  function Reported(entry: PollFd, id: TimerId): seq<Event> {
    if HasIn(entry.revents) && HasHup(entry.revents) then [Data(entry.fd, id), HangUp(entry.fd)]
    else if HasIn(entry.revents) then [Data(entry.fd, id)]
    else if HasHup(entry.revents) then [HangUp(entry.fd)]
    else []
  }

  function PassEvents(s: Slots, order: seq<Fd>, ids: seq<TimerId>): seq<Event>
    requires InRange(s) && Tracked(s, order) && |ids| >= |order|
    decreases |order|
  {
    if order == [] then [] else Reported(s.list[s.indexOf[order[0]]], ids[0]) + PassEvents(s, order[1..], ids[1..])
  }

  lemma EntryIsRun(t: Tables, entry: PollFd, id: TimerId)
    requires InRange(t.slots)
    ensures AtEntry(t, entry, id) == Run(t, Reported(entry, id))
  {
    var d, h := Data(entry.fd, id), HangUp(entry.fd);
    RunShort(t, d, h);
    RunShort(t, h, h);
    hide IncomingData, Close, Run;
  }

  lemma RunShort(t: Tables, d: Event, h: Event)
    requires InRange(t.slots)
    ensures Run(t, []) == t && Run(t, [d]) == Step(t, d) && Run(t, [d, h]) == Step(Step(t, d), h)
  {
    hide Step;
    assert [d, h][1..] == [h] && [d][1..] == [] && [h][1..] == [];
    assert Run(t, [d, h]) == Run(Step(t, d), [h]);
  }

  /** What one descriptor's events change, they leave the other descriptors' events the same. */
  lemma {:induction false} SameEvents(s: Slots, s': Slots, order: seq<Fd>, ids: seq<TimerId>)
    requires InRange(s) && InRange(s') && Tracked(s, order) && Tracked(s', order) && |ids| >= |order|
    requires forall i | 0 <= i < |order| :: s'.list[s'.indexOf[order[i]]] == s.list[s.indexOf[order[i]]]
    ensures PassEvents(s', order, ids) == PassEvents(s, order, ids)
    decreases |order|
  {
    if order != [] { SameEvents(s, s', order[1..], ids[1..]); }
  }

  lemma LeftEntries(s: Slots, s': Slots, order: seq<Fd>)
    requires Valid(s) && Valid(s') && order != [] && Tracked(s, order) && Left(s, s', [order[0]])
    ensures Tracked(s', order[1..])
    ensures forall i | 0 < i < |order| :: s'.list[s'.indexOf[order[i]]] == s.list[s.indexOf[order[i]]]
  {}

  /** A pass is the run of the events the poll reported, descriptor by descriptor. */
  lemma {:induction false} PassIsRun(t: Tables, order: seq<Fd>, index: map<Fd, int>, ids: seq<TimerId>)
    requires Valid(t.slots) && Tracked(t.slots, order) && |ids| >= |order|
    requires forall i | 0 <= i < |order| :: order[i] in index && index[order[i]] == t.slots.indexOf[order[i]]
    ensures ClientPass(t, order, index, ids).tables == Run(t, PassEvents(t.slots, order, ids))
    decreases |order|
  {
    if order != [] {
      var fd, rest := order[0], order[1..];
      var entry := t.slots.list[index[fd]];
      AtEntrySlots(t, fd, ids[0]);
      var u := AtEntry(t, entry, ids[0]);
      LeftEntries(t.slots, u.slots, order);
      assert forall i | 0 <= i < |rest| :: rest[i] == order[i + 1];
      PassIsRun(u, rest, index, ids[1..]);
      hide Valid, Left, AtEntry, Run, Reported;
      SameEvents(t.slots, u.slots, rest, ids[1..]);
      EntryIsRun(t, entry, ids[0]);
      RunTwice(t, Reported(entry, ids[0]), PassEvents(u.slots, rest, ids[1..]));
    }
  }

  ghost predicate Inv(t: Tables) {
    Valid(t.slots) && MapsBack(t.links) && t.slots.active.Keys <= t.links.timerOf.Keys
  }

  lemma AddLinks(t: Tables, fd: Fd, id: TimerId)
    requires InRange(t.slots) && MapsBack(t.links) && t.slots.active.Keys <= t.links.timerOf.Keys
    requires fd !in t.slots.active && NotOthers(t.links, fd, id)
    ensures var u := AddConnection(t, fd, id); MapsBack(u.links) && u.slots.active.Keys <= u.links.timerOf.Keys
  {
    StartMapsBackIff(t.links, fd, id);
  }

  lemma DataLinks(t: Tables, fd: Fd, id: TimerId)
    requires MapsBack(t.links) && t.slots.active.Keys <= t.links.timerOf.Keys && NotOthers(t.links, fd, id)
    ensures var u := IncomingData(t, fd, id); MapsBack(u.links) && u.slots.active.Keys <= u.links.timerOf.Keys
  {
    StopMapsBack(t.links, fd);
    StartMapsBackIff(Stop(t.links, fd), fd, id);
  }

  lemma StepKeeps(t: Tables, e: Event)
    requires Inv(t) && Legal(t, e)
    ensures Inv(Step(t, e))
  {
    match e
    case Accepted(fd, id) =>
      AddGrows(t, fd, id);
      AddLinks(t, fd, id);
      hide Valid, MapsBack, AddConnection;
    case Data(fd, id) =>
      DataLinks(t, fd, id);
      hide Valid, MapsBack;
    case HangUp(fd) =>
      CloseKeeps(t, fd);
      StopMapsBack(t.links, fd);
      hide Valid, MapsBack;
    case TimerFires(_) =>
      hide Valid;
  }

  lemma {:induction false} RunKeeps(t: Tables, events: seq<Event>)
    requires Inv(t) && LegalRun(t, events)
    ensures Inv(Run(t, events))
    decreases |events|
  {
    if events != [] {
      StepKeeps(t, events[0]);
      assert InRange(t.slots);
      hide Inv, Step, Legal;
      RunKeeps(Step(t, events[0]), events[1..]);
    }
  }

  lemma SetUpInv(s: Slots)
    requires Fresh(s)
    ensures Inv(Tables(s, Links(map[], map[], {})))
  {}

  // ---- main results

  /**
    From setup on, for descriptors accepted while not tracked: the indices but the server's are
    partitioned into the free ones and those in use, the map is injective, entries agree with it,
    and the connections are those of the descriptors mapped.
   */
  lemma SlotTable(s: Slots, events: seq<Event>)
    requires Fresh(s) && LegalRun(Tables(s, Links(map[], map[], {})), events)
    ensures var r := Run(Tables(s, Links(map[], map[], {})), events).slots;
            && (forall i | 1 <= i < |r.list| :: i in r.free <==> i !in r.indexOf.Values)
            && (forall f, g | f in r.indexOf && g in r.indexOf && r.indexOf[f] == r.indexOf[g] :: f == g)
            && (forall i | i in r.free :: 1 <= i < |r.list| && r.list[i].fd == -1)
            && (forall fd | fd in r.indexOf :: 1 <= r.indexOf[fd] < |r.list| && r.list[r.indexOf[fd]].fd == fd)
            && r.active.Keys == r.indexOf.Keys
            && |r.free| + |r.active| == |r.list| - 1
  {
    SetUpInv(s);
    RunKeeps(Tables(s, Links(map[], map[], {})), events);
    var r := Run(Tables(s, Links(map[], map[], {})), events).slots;
    Partition(r);
    assert |r.active.Keys| == |r.indexOf.Keys|;
  }

  /** Over every run, each connection has a timer on record, and it leads back to that connection. */
  lemma TimersMapBack(s: Slots, events: seq<Event>)
    requires Fresh(s) && LegalRun(Tables(s, Links(map[], map[], {})), events)
    ensures var t := Run(Tables(s, Links(map[], map[], {})), events);
            && (forall fd | fd in t.links.timerOf ::
                  t.links.timerOf[fd] in t.links.fdOf && t.links.fdOf[t.links.timerOf[fd]] == fd)
            && (forall fd | fd in t.slots.active ::
                  fd in t.links.timerOf && Expired(t, t.links.timerOf[fd]) == Some(fd))
  {
    SetUpInv(s);
    RunKeeps(Tables(s, Links(map[], map[], {})), events);
  }

  /** Every timer stopped is still to fire, and new ids are on record nowhere. */
  ghost predicate Prompt(t: Tables, e: Event) {
    && (e.Data? || e.HangUp? ==> e.fd in t.links.timerOf ==> t.links.timerOf[e.fd] in t.links.pending)
    && (e.Accepted? || e.Data? ==> e.id !in t.links.fdOf)
  }

  ghost predicate PromptRun(t: Tables, events: seq<Event>)
    requires InRange(t.slots)
    decreases |events|
  {
    events == [] || (Prompt(t, events[0]) && PromptRun(Step(t, events[0]), events[1..]))
  }

  lemma PromptStep(t: Tables, e: Event)
    requires Inv(t) && Legal(t, e) && Prompt(t, e) && Inverse(t.links) && t.links.timerOf.Keys == t.slots.active.Keys
    ensures Inverse(Step(t, e).links) && Step(t, e).links.timerOf.Keys == Step(t, e).slots.active.Keys
  {
    hide Valid;
    match e
    case Accepted(fd, _) => assert t.slots.active.Keys == t.slots.indexOf.Keys by { ActiveAreTracked(t.slots); }
    case Data(fd, id) => if fd in t.links.timerOf { DataKeepsInverseIff(t.links, fd, id); }
    case HangUp(_) =>
    case TimerFires(_) =>
  }

  lemma ActiveAreTracked(s: Slots)
    requires Valid(s)
    ensures s.active.Keys == s.indexOf.Keys
  {}

  lemma {:induction false} PromptKeeps(t: Tables, events: seq<Event>)
    requires Inv(t) && LegalRun(t, events) && PromptRun(t, events) && Inverse(t.links)
           && t.links.timerOf.Keys == t.slots.active.Keys
    ensures Inverse(Run(t, events).links) && Run(t, events).links.timerOf.Keys == Run(t, events).slots.active.Keys
    decreases |events|
  {
    if events != [] {
      StepKeeps(t, events[0]);
      PromptStep(t, events[0]);
      hide Inv, Step, Legal, Prompt, Inverse;
      PromptKeeps(Step(t, events[0]), events[1..]);
    }
  }

  /** If every stop finds its timer pending, the two timer maps are exact inverses, one entry per connection. */
  lemma PromptMapsInverse(s: Slots, events: seq<Event>)
    requires Fresh(s) && var t := Tables(s, Links(map[], map[], {})); LegalRun(t, events) && PromptRun(t, events)
    ensures var t := Run(Tables(s, Links(map[], map[], {})), events);
            Inverse(t.links) && t.links.timerOf.Keys == t.slots.active.Keys
  {
    SetUpInv(s);
    PromptKeeps(Tables(s, Links(map[], map[], {})), events);
  }

  // ---- timers that run

  /** The event starts timer `id`. */
  ghost predicate Starts(t: Tables, e: Event, id: TimerId) {
    || (e.Accepted? && e.id == id && t.slots.free != {} && e.fd !in t.slots.active)
    || (e.Data? && e.id == id && e.fd in t.slots.active)
  }

  /** The event stops timer `id`: data or a hang-up on the descriptor that has it. */
  ghost predicate Stops(t: Tables, e: Event, id: TimerId) {
    && (e.HangUp? || (e.Data? && e.fd in t.slots.active))
    && e.fd in t.links.timerOf && t.links.timerOf[e.fd] == id
  }

  /** A timer is pending from its start until it fires or is stopped. */
  lemma PendingIff(t: Tables, e: Event, id: TimerId)
    requires InRange(t.slots)
    ensures id in Step(t, e).links.pending
       <==> Starts(t, e, id) || (id in t.links.pending && e != TimerFires(id) && !Stops(t, e, id))
  {}

  /** The event neither fires timer `id` nor takes in data or a hang-up on `fd`. */
  ghost predicate LetsRun(e: Event, fd: Fd, id: TimerId) {
    e != TimerFires(id) && ((e.Data? || e.HangUp?) ==> e.fd != fd)
  }

  lemma StepLetsRun(t: Tables, e: Event, fd: Fd, id: TimerId)
    requires Inv(t) && Legal(t, e) && LetsRun(e, fd, id)
    requires fd in t.slots.active && fd in t.links.timerOf && t.links.timerOf[fd] == id && id in t.links.pending
    ensures var u := Step(t, e);
            && fd in u.slots.active && fd in u.links.timerOf && u.links.timerOf[fd] == id && id in u.links.pending
  {
    PendingIff(t, e, id);
    ActiveAreTracked(t.slots);
    hide Valid;
  }

  lemma {:induction false} RunLetsRun(t: Tables, events: seq<Event>, fd: Fd, id: TimerId)
    requires Inv(t) && LegalRun(t, events) && forall i | 0 <= i < |events| :: LetsRun(events[i], fd, id)
    requires fd in t.slots.active && fd in t.links.timerOf && t.links.timerOf[fd] == id && id in t.links.pending
    ensures var u := Run(t, events);
            && fd in u.slots.active && fd in u.links.timerOf && u.links.timerOf[fd] == id && id in u.links.pending
    decreases |events|
  {
    if events != [] {
      StepKeeps(t, events[0]);
      StepLetsRun(t, events[0], fd, id);
      assert forall i | 0 <= i < |events[1..]| :: events[1..][i] == events[i + 1];
      hide Inv, Step, Legal, LetsRun;
      RunLetsRun(Step(t, events[0]), events[1..], fd, id);
    }
  }

  /**
    The timer of a connection runs from its start, by a connection accepted or by data, over any run
    until it fires or there is data or a hang-up on its descriptor.
   */
  lemma TimerRuns(t: Tables, e: Event, events: seq<Event>)
    requires Inv(t) && Legal(t, e) && (e.Accepted? || e.Data?) && Starts(t, e, e.id)
    requires LegalRun(Step(t, e), events) && forall i | 0 <= i < |events| :: LetsRun(events[i], e.fd, e.id)
    ensures var u := Run(Step(t, e), events);
            && e.id in u.links.pending && e.fd in u.links.timerOf && u.links.timerOf[e.fd] == e.id
            && Expired(u, e.id) == Some(e.fd)
  {
    StepKeeps(t, e);
    StartedRuns(t, e);
    RunLetsRun(Step(t, e), events, e.fd, e.id);
    RunKeeps(Step(t, e), events);
    hide Run, LegalRun, Step;
  }

  lemma StartedRuns(t: Tables, e: Event)
    requires InRange(t.slots) && (e.Accepted? || e.Data?) && Starts(t, e, e.id)
    ensures var u := Step(t, e);
            && e.fd in u.slots.active && e.fd in u.links.timerOf && u.links.timerOf[e.fd] == e.id
                  && e.id in u.links.pending
  {}

  /** No id is given out twice. */
  ghost predicate NewIds(events: seq<Event>) {
    forall i, j | 0 <= i < j < |events| && (events[i].Accepted? || events[i].Data?)
        && (events[j].Accepted? || events[j].Data?) ::
      events[i].id != events[j].id
  }

  ghost predicate NoneFires(events: seq<Event>) {
    forall i | 0 <= i < |events| :: !events[i].TimerFires?
  }

  /** Every timer on record is pending, and none that is still to be given out is on record. */
  ghost predicate AllPending(t: Tables, events: seq<Event>) {
    && t.links.pending == t.links.fdOf.Keys
    && forall i | 0 <= i < |events| && (events[i].Accepted? || events[i].Data?) :: events[i].id !in t.links.fdOf
  }

  lemma AllPendingStep(t: Tables, events: seq<Event>)
    requires Inv(t) && events != [] && Legal(t, events[0]) && NewIds(events) && NoneFires(events)
           && AllPending(t, events)
    ensures Prompt(t, events[0]) && AllPending(Step(t, events[0]), events[1..])
    ensures NewIds(events[1..]) && NoneFires(events[1..])
  {
    hide Valid;
    assert forall i | 0 <= i < |events[1..]| :: events[1..][i] == events[i + 1];
  }

  lemma {:induction false} AllPendingRun(t: Tables, events: seq<Event>)
    requires Inv(t) && LegalRun(t, events) && NewIds(events) && NoneFires(events) && AllPending(t, events)
    ensures PromptRun(t, events) && Run(t, events).links.pending == Run(t, events).links.fdOf.Keys
    decreases |events|
  {
    if events != [] {
      StepKeeps(t, events[0]);
      AllPendingStep(t, events);
      hide Inv, Step, Legal, AllPending, Prompt, NewIds, NoneFires;
      AllPendingRun(Step(t, events[0]), events[1..]);
    }
  }

  /**
    From setup on, with new ids and as long as no timer fires, the two timer maps are exact inverses
    with one entry per connection, and exactly the timers on record are pending.
   */
  lemma TimerMapsInverse(s: Slots, events: seq<Event>)
    requires Fresh(s) && LegalRun(Tables(s, Links(map[], map[], {})), events) && NewIds(events) && NoneFires(events)
    ensures var t := Run(Tables(s, Links(map[], map[], {})), events);
            Inverse(t.links) && t.links.timerOf.Keys == t.slots.active.Keys && t.links.pending == t.links.fdOf.Keys
  {
    SetUpInv(s);
    AllPendingRun(Tables(s, Links(map[], map[], {})), events);
    PromptMapsInverse(s, events);
  }

  // ---- what a turn does for each descriptor

  /** How many of the results are descriptors, before the first that is not. */
  function Positive(results: seq<int>): nat {
    if results == [] || results[0] <= 0 then 0 else 1 + Positive(results[1..])
  }

  /** Of `n` connections and `room` free entries. */
  function Fewer(n: nat, room: nat): nat {
    if n < room then n else room
  }

  /** The first `n` results. */
  ghost predicate Among(results: seq<int>, n: nat, fd: Fd) {
    exists i :: 0 <= i < n <= |results| && results[i] == fd
  }

  /**
    Accepting takes in the descriptors given out, in order and as many as there is room for; those
    that find no room are dropped.
   */
  lemma {:induction false} AcceptTakes(t: Tables, results: seq<int>, ids: seq<TimerId>)
    requires Valid(t.slots) && |ids| >= |results| && NewSockets(t.slots, results)
    ensures Positive(results) <= |results|
    ensures var u, n := AcceptAll(t, results, ids).tables, Fewer(Positive(results), |t.slots.free|);
            && (forall fd :: fd in u.slots.indexOf <==> fd in t.slots.indexOf || Among(results, n, fd))
            && |u.slots.free| == |t.slots.free| - n
    decreases |results|
  {
    hide *;
    ValidIs(t.slots);
    if results == [] || results[0] <= 0 {
      NoneAccepted(t, results, ids);
    } else {
      var u := AddConnection(t, results[0], ids[0]);
      NotTracked(t.slots, results);
      AcceptFirst(t, results, ids);
      AddGrows(t, results[0], ids[0]);
      RestNew(t.slots, u.slots, results);
      AcceptTakes(u, results[1..], ids[1..]);
      AddTakes(t, results[0], ids[0]);
      AmongFirst(results, |t.slots.free|);
    }
  }

  lemma NotTracked(s: Slots, results: seq<int>)
    requires NewSockets(s, results) && results != []
    ensures results[0] !in s.indexOf
  {}

  lemma NoneAccepted(t: Tables, results: seq<int>, ids: seq<TimerId>)
    requires InRange(t.slots) && |ids| >= |results| && (results == [] || results[0] <= 0)
    ensures AcceptAll(t, results, ids).tables == t && Positive(results) == 0 == Fewer(Positive(results), |t.slots.free|)
    ensures forall fd :: !Among(results, 0, fd)
  {}

  lemma AcceptFirst(t: Tables, results: seq<int>, ids: seq<TimerId>)
    requires InRange(t.slots) && |ids| >= |results| && results != [] && results[0] > 0
    ensures AcceptAll(t, results, ids) == AcceptAll(AddConnection(t, results[0], ids[0]), results[1..], ids[1..])
    ensures Positive(results) == 1 + Positive(results[1..])
  {}

  /** One connection more, if there is room, at the lowest free index and with its own timer. */
  lemma AddTakes(t: Tables, fd: Fd, id: TimerId)
    requires Valid(t.slots) && fd !in t.slots.indexOf
    ensures var u := AddConnection(t, fd, id);
            if t.slots.free == {} then u == t
            else
              && (forall f :: f in u.slots.indexOf <==> f in t.slots.indexOf || f == fd)
              && |u.slots.free| == |t.slots.free| - 1
              && (forall i | i in t.slots.free :: u.slots.indexOf[fd] <= i)
              && u.slots.indexOf[fd] in t.slots.free && u.slots.list[u.slots.indexOf[fd]].events == POLLIN
              && fd in u.links.timerOf && u.links.timerOf[fd] == id
  {
    if t.slots.free != {} {
      var i := Least(t.slots.free);
      assert (t.slots.free - {i}) + {i} == t.slots.free;
    }
  }

  lemma AmongFirst(results: seq<int>, room: nat)
    requires results != [] && Positive(results) == 1 + Positive(results[1..]) && Positive(results[1..]) <= |results| - 1
    ensures var n := Fewer(Positive(results), room);
            && (room == 0 ==> n == 0 == Fewer(Positive(results[1..]), 0))
            && (room > 0 ==>
                  && n == 1 + Fewer(Positive(results[1..]), room - 1)
                  && forall fd :: Among(results, n, fd) <==> fd == results[0] || Among(results[1..], n - 1, fd))
            && forall fd :: !Among(results, 0, fd) && !Among(results[1..], 0, fd)
  {
    var n := Fewer(Positive(results), room);
    if room > 0 {
      hide Positive;
      forall fd ensures Among(results, n, fd) <==> fd == results[0] || Among(results[1..], n - 1, fd) {
        if Among(results, n, fd) && fd != results[0] {
          var i :| 0 <= i < n && results[i] == fd;
          assert results[1..][i - 1] == fd;
        }
        if Among(results[1..], n - 1, fd) {
          var i :| 0 <= i < n - 1 && results[1..][i] == fd;
          assert results[i + 1] == fd;
        }
        if fd == results[0] { assert 0 <= 0 < n && results[0] == fd; }
      }
    }
  }

  /** An entry's events touch no other descriptor's timer; data restarts its own, and a hang-up alone ends it. */
  lemma EntryTimers(t: Tables, entry: PollFd, id: TimerId)
    requires InRange(t.slots) && entry.fd in t.slots.active && entry.fd in t.links.timerOf
    ensures var u := AtEntry(t, entry, id);
            && (forall f | f != entry.fd ::
                  && (f in u.links.timerOf <==> f in t.links.timerOf)
                  && (f in t.links.timerOf ==> u.links.timerOf[f] == t.links.timerOf[f]))
            && (!HasHup(entry.revents) ==>
                  && entry.fd in u.links.timerOf
                  && u.links.timerOf[entry.fd] == if HasIn(entry.revents) then id else t.links.timerOf[entry.fd])
  {}

  /** What a pass needs of the tables for its timers. */
  ghost predicate Passable(t: Tables, order: seq<Fd>, index: map<Fd, int>) {
    && Valid(t.slots) && Tracked(t.slots, order)
    && (forall i | 0 <= i < |order| :: order[i] in index && index[order[i]] == t.slots.indexOf[order[i]])
    && (forall i | 0 <= i < |order| :: order[i] in t.links.timerOf)
  }

  /** The first entry of a pass, and the rest of it. */
  lemma PassParts(t: Tables, order: seq<Fd>, index: map<Fd, int>, ids: seq<TimerId>)
    requires Passable(t, order, index) && |ids| >= |order| > 0
    ensures InRange(t.slots) && (forall i | 0 <= i < |order| :: 0 <= index[order[i]] < |t.slots.list|)
    ensures order[0] in index && order[0] in t.slots.active && order[0] in t.links.timerOf
    ensures var entry := t.slots.list[index[order[0]]];
            var u := AtEntry(t, entry, ids[0]);
            && entry.fd == order[0] && Passable(u, order[1..], index)
            && InRange(u.slots) && (forall i | 0 <= i < |order| - 1 :: 0 <= index[order[1..][i]] < |u.slots.list|)
            && ClientPass(t, order, index, ids) == ClientPass(u, order[1..], index, ids[1..])
  {
    hide *;
    FirstKnown(t, order, index);
    AllInRange(t.slots, order, index);
    var fd, rest := order[0], order[1..];
    AtEntrySlots(t, fd, ids[0]);
    var entry := t.slots.list[index[fd]];
    var u := AtEntry(t, entry, ids[0]);
    EntryTimers(t, entry, ids[0]);
    RestTracked(t.slots, u.slots, order, index);
    PassFirst(t, order, index, ids);
    TimersLeft(t, u, order);
    ValidIs(u.slots);
    IsPassable(u, rest, index);
  }

  lemma FirstKnown(t: Tables, order: seq<Fd>, index: map<Fd, int>)
    requires Passable(t, order, index) && order != []
    ensures Valid(t.slots) && Tracked(t.slots, order) && order[0] in index && order[0] in t.slots.indexOf
    ensures forall i | 0 <= i < |order| :: order[i] in index && index[order[i]] == t.slots.indexOf[order[i]]
    ensures order[0] in t.slots.active && forall i | 0 <= i < |order| :: order[i] in t.links.timerOf
    ensures forall i | 0 < i < |order| :: order[i] != order[0]
  {}

  lemma TimersLeft(t: Tables, u: Tables, order: seq<Fd>)
    requires order != [] && (forall i | 0 <= i < |order| :: order[i] in t.links.timerOf)
    requires forall i | 0 < i < |order| :: order[i] != order[0]
    requires forall f | f != order[0] :: f in u.links.timerOf <==> f in t.links.timerOf
    ensures forall i | 0 <= i < |order[1..]| :: order[1..][i] in u.links.timerOf
  {
    assert forall i | 0 <= i < |order[1..]| :: order[1..][i] == order[i + 1];
  }

  lemma IsPassable(t: Tables, order: seq<Fd>, index: map<Fd, int>)
    requires Valid(t.slots) && Tracked(t.slots, order) && (forall i | 0 <= i < |order| :: order[i] in t.links.timerOf)
    requires forall i | 0 <= i < |order| :: order[i] in index && index[order[i]] == t.slots.indexOf[order[i]]
    ensures Passable(t, order, index)
  {}

  /** A pass touches no timer of a descriptor it does not visit. */
  lemma {:induction false} PassOthers(t: Tables, order: seq<Fd>, index: map<Fd, int>, ids: seq<TimerId>, f: Fd)
    requires Passable(t, order, index) && |ids| >= |order| && f !in order && f in t.links.timerOf
    ensures InRange(t.slots) && (forall i | 0 <= i < |order| :: 0 <= index[order[i]] < |t.slots.list|)
    ensures var u := ClientPass(t, order, index, ids).tables;
            f in u.links.timerOf && u.links.timerOf[f] == t.links.timerOf[f]
    decreases |order|
  {
    if order != [] {
      PassParts(t, order, index, ids);
      var entry := t.slots.list[index[order[0]]];
      EntryTimers(t, entry, ids[0]);
      assert order[0] in order && forall g | g in order[1..] :: g in order;
      hide Passable, AtEntry, ClientPass;
      PassOthers(AtEntry(t, entry, ids[0]), order[1..], index, ids[1..], f);
    }
  }

  /** A descriptor visited keeps its flags until its turn comes. */
  lemma EntryKept(t: Tables, order: seq<Fd>, index: map<Fd, int>, id: TimerId, k: nat)
    requires Passable(t, order, index) && 0 < k < |order|
    ensures InRange(t.slots) && 0 <= index[order[0]] < |t.slots.list| && 0 <= index[order[k]] < |t.slots.list|
    ensures var u := AtEntry(t, t.slots.list[index[order[0]]], id);
            u.slots.list[index[order[k]]] == t.slots.list[index[order[k]]]
  {
    AtEntrySlots(t, order[0], id);
    var u := AtEntry(t, t.slots.list[index[order[0]]], id);
    LeftEntries(t.slots, u.slots, order);
    assert order[1..][k - 1] == order[k];
    hide AtEntry;
  }

  /**
    A pass gives each descriptor with data and no hang-up the timer meant for it; the timers of those
    that had neither go on.
   */
  lemma {:induction false} PassTimers(t: Tables, order: seq<Fd>, index: map<Fd, int>, ids: seq<TimerId>, k: nat)
    requires Passable(t, order, index) && |ids| >= |order| > k
    requires InRange(t.slots) && forall i | 0 <= i < |order| :: 0 <= index[order[i]] < |t.slots.list|
    requires !HasHup(t.slots.list[index[order[k]]].revents)
    ensures var u, fd := ClientPass(t, order, index, ids).tables, order[k];
            && fd in t.links.timerOf && fd in u.links.timerOf
            && u.links.timerOf[fd]
            == if HasIn(t.slots.list[index[fd]].revents) then ids[k] else t.links.timerOf[fd]
    decreases |order|
  {
    PassParts(t, order, index, ids);
    var entry := t.slots.list[index[order[0]]];
    var u := AtEntry(t, entry, ids[0]);
    EntryTimers(t, entry, ids[0]);
    NotAgain(t, order, index);
    if k == 0 {
      hide *;
      PassOthers(u, order[1..], index, ids[1..], order[0]);
    } else {
      EntryKept(t, order, index, ids[0], k);
      NotFirst(t, order, index, k);
      HasTimer(t, order, index, k);
      hide *;
      assert order[1..][k - 1] == order[k] && ids[1..][k - 1] == ids[k];
      PassTimers(u, order[1..], index, ids[1..], k - 1);
    }
  }

  lemma NotAgain(t: Tables, order: seq<Fd>, index: map<Fd, int>)
    requires order != [] && Passable(t, order, index)
    ensures order[0] !in order[1..]
  {}

  lemma NotFirst(t: Tables, order: seq<Fd>, index: map<Fd, int>, k: nat)
    requires 0 < k < |order| && Passable(t, order, index)
    ensures order[k] != order[0]
  {}

  lemma HasTimer(t: Tables, order: seq<Fd>, index: map<Fd, int>, k: nat)
    requires Passable(t, order, index) && k < |order|
    ensures order[k] in t.links.timerOf
  {}

  // ---- stale timeouts

  /** Timer `id` is not started in the run. */
  ghost predicate NotStarted(events: seq<Event>, id: TimerId) {
    forall i | 0 <= i < |events| && (events[i].Accepted? || events[i].Data?) :: events[i].id != id
  }

  /** Timer `id` has fired and is still on record as the one of `fd`. */
  ghost predicate FiredFor(l: Links, fd: Fd, id: TimerId) {
    id in l.fdOf && l.fdOf[id] == fd && id !in l.pending
  }

  lemma StepLeavesRecord(t: Tables, e: Event, fd: Fd, id: TimerId)
    requires Inv(t) && Legal(t, e) && ((e.Accepted? || e.Data?) ==> e.id != id)
    ensures FiredFor(t.links, fd, id) ==> FiredFor(Step(t, e).links, fd, id)
    ensures id !in t.links.fdOf ==> id !in Step(t, e).links.fdOf
  {
    hide Valid;
  }

  /**
    Until it is started again, a timer that fired stays on record for its descriptor, and one off the
    record stays off.
   */
  lemma {:induction false} RecordStays(t: Tables, events: seq<Event>, fd: Fd, id: TimerId)
    requires Inv(t) && LegalRun(t, events) && NotStarted(events, id)
    ensures FiredFor(t.links, fd, id) ==> FiredFor(Run(t, events).links, fd, id)
    ensures id !in t.links.fdOf ==> id !in Run(t, events).links.fdOf
    decreases |events|
  {
    if events != [] {
      StepKeeps(t, events[0]);
      StepLeavesRecord(t, events[0], fd, id);
      assert NotStarted(events[1..], id) by {
        assert forall i | 0 <= i < |events[1..]| :: events[1..][i] == events[i + 1];
      }
      hide Inv, Step, Legal, FiredFor, NotStarted;
      RecordStays(Step(t, events[0]), events[1..], fd, id);
    }
  }

  /**
    A timer that fired stays on record for good: whatever happens next, until its id is given out
    again, its timeout disconnects whoever then has the descriptor.
   */
  lemma FiredTimeoutCloses(t: Tables, fd: Fd, events: seq<Event>)
    requires Inv(t) && fd in t.links.timerOf && t.links.timerOf[fd] !in t.links.pending
    requires LegalRun(t, events) && NotStarted(events, t.links.timerOf[fd])
    ensures var r := Run(t, events);
            Expired(r, t.links.timerOf[fd]) == if fd in r.slots.active then Some(fd) else None
  {
    RecordStays(t, events, fd, t.links.timerOf[fd]);
    RunKeeps(t, events);
    hide Run, LegalRun;
  }

  /**
    Data on a connection replaces its timer. The timeout of the former one, arriving after any
    further events, disconnects whoever has the descriptor if and only if that timer had fired
    before the data came; otherwise it does nothing.
   */
  lemma StaleTimeoutClosesIff(t: Tables, fd: Fd, id: TimerId, events: seq<Event>)
    requires Inv(t) && fd in t.slots.active && Legal(t, Data(fd, id)) && id != t.links.timerOf[fd]
    requires LegalRun(Step(t, Data(fd, id)), events) && NotStarted(events, t.links.timerOf[fd])
    ensures var r, stale := Run(Step(t, Data(fd, id)), events), t.links.timerOf[fd];
            Expired(r, stale) == if stale !in t.links.pending && fd in r.slots.active then Some(fd) else None
  {
    var u, stale := Step(t, Data(fd, id)), t.links.timerOf[fd];
    StepKeeps(t, Data(fd, id));
    DataRecords(t, fd, id);
    RecordStays(u, events, fd, stale);
    RunKeeps(u, events);
    hide Run, LegalRun, Step;
  }

  lemma DataRecords(t: Tables, fd: Fd, id: TimerId)
    requires MapsBack(t.links) && fd in t.slots.active && fd in t.links.timerOf && id != t.links.timerOf[fd]
    ensures var u, stale := IncomingData(t, fd, id), t.links.timerOf[fd];
            if stale in t.links.pending then stale !in u.links.fdOf else FiredFor(u.links, fd, stale)
  {}

  /** So a client that hung up after its timer fired leaves its timeout to the next with its descriptor. */
  lemma NewcomerTimedOut(t: Tables, fd: Fd, id: TimerId)
    requires Inv(t) && fd in t.slots.active && t.links.timerOf[fd] !in t.links.pending
    requires id != t.links.timerOf[fd] && NotOthers(t.links, fd, id)
    ensures LegalRun(t, [HangUp(fd), Accepted(fd, id)])
    ensures Expired(Run(t, [HangUp(fd), Accepted(fd, id)]), t.links.timerOf[fd]) == Some(fd)
  {
    var first, second := HangUp(fd), Accepted(fd, id);
    RunShort(t, first, second);
    StepKeeps(t, first);
    ClosedAndReused(t, fd, id);
    hide Step, Inv, Legal;
    assert [first, second][1..] == [second] && [second][1..] == [];
    assert LegalRun(Step(t, first), [second]);
    FiredTimeoutCloses(t, fd, [first, second]);
  }

  lemma ClosedAndReused(t: Tables, fd: Fd, id: TimerId)
    requires Inv(t) && fd in t.slots.active && NotOthers(t.links, fd, id)
    ensures Legal(t, HangUp(fd)) && Legal(Step(t, HangUp(fd)), Accepted(fd, id))
    ensures fd in Step(Step(t, HangUp(fd)), Accepted(fd, id)).slots.active
  {
    StopMapsBack(t.links, fd);
    hide Stop, MapsBack;
  }
}
