/** The transitions of the thread pool, on values, and what every run of it keeps. */
module ThreadPoolSpec {
  import Maps

  type ThreadId = nat
  type TimerId = int
  type Job = nat

  /**
    A worker as the pool sees it. `Created` has its busy flag set but no job; `Done` has cleared
    the flag.
   */
  datatype Worker = Created | Running(job: Job) | Done {
    predicate IsBusy() { !Done? }
  }

  datatype ErrorCode = NoError | UnknownThreadId | UnknownTimerId | BusyThreadResource

  /**
    `handsOver` tells the two readings apart: the code makes a new worker without giving it the
    job (false), the class comment says every submitted job is executed (true).
   */
  datatype Pool = Pool(
    maxThreads: nat,
    handsOver: bool,
    busy: map<ThreadId, Worker>,
    idle: map<ThreadId, Worker>,
    buffer: seq<Job>,
    timerOf: map<ThreadId, TimerId>,
    threadOf: map<TimerId, ThreadId>,
    error: ErrorCode)

  function StopTimer(p: Pool, t: ThreadId): Pool {
    if t in p.timerOf && p.timerOf[t] in p.threadOf then
      p.(timerOf := p.timerOf - {t}, threadOf := p.threadOf - {p.timerOf[t]})
    else p
  }

  function StartTimer(p: Pool, t: ThreadId, newTimer: TimerId): Pool {
    p.(threadOf := p.threadOf[newTimer := t], timerOf := p.timerOf[t := newTimer])
  }

  /** `first` is the idle map's first entry, `created` the id of the thread a call may create. */
  function Execute(p: Pool, job: Job, first: ThreadId, created: ThreadId): Pool {
    if p.idle != map[] then
      var q := StopTimer(p, first);
      q.(idle := q.idle - {first}, busy := q.busy[first := Running(job)])
    else if |p.busy| < p.maxThreads then
      p.(busy := p.busy[created := if p.handsOver then Running(job) else Created])
    else
      p.(buffer := p.buffer + [job])
  }

  function Timeout(p: Pool, timer: TimerId): Pool {
    if timer !in p.threadOf then p.(error := UnknownTimerId) else
      var t := p.threadOf[timer];
      p.(threadOf := p.threadOf - {timer}, timerOf := p.timerOf - {t}, idle := p.idle - {t})
  }

  function Finished(p: Pool, t: ThreadId, newTimer: TimerId): Pool {
    if t !in p.busy then p.(error := UnknownThreadId)
    else if p.busy[t].IsBusy() then p.(error := BusyThreadResource)
    else if p.buffer != [] then
      p.(buffer := p.buffer[1..], busy := p.busy[t := Running(p.buffer[0])])
    else
      StartTimer(p.(idle := p.idle[t := p.busy[t]], busy := p.busy - {t}), t, newTimer)
  }

  // ---- runs

  /**
    The pool with its workers, the finished notices not yet handled, and the history: all jobs
    submitted, those not dropped, and those started, each in order.
   */
  datatype System = System(pool: Pool, notices: seq<ThreadId>, submitted: seq<Job>, kept: seq<Job>, started: seq<Job>)

  datatype Event =
    | Submit(job: Job, first: ThreadId, created: ThreadId)
    | WorkerEnds(thread: ThreadId)
    | HandleFinished(newTimer: TimerId)
    | HandleTimeout(timer: TimerId)

  function Init(maxThreads: nat, handsOver: bool): System {
    System(Pool(maxThreads, handsOver, map[], map[], [], map[], map[], NoError), [], [], [], [])
  }

  /** What the library around the pool guarantees: a new thread or timer gets an id not in use. */
  ghost predicate Legal(s: System, e: Event) {
    match e
    case Submit(_, first, created) =>
      (s.pool.idle != map[] ==> first in s.pool.idle) && created !in s.pool.busy && created !in s.pool.idle
    case WorkerEnds(t) => t in s.pool.busy && s.pool.busy[t].Running?
    case HandleFinished(newTimer) => s.notices != [] && newTimer !in s.pool.threadOf
    case HandleTimeout(_) => true
  }

  /** Submitting now drops the job: it goes to a new worker that is not given it. */
  predicate Drops(p: Pool) {
    p.idle == map[] && |p.busy| < p.maxThreads && !p.handsOver
  }

  function Step(s: System, e: Event): System
    requires Legal(s, e)
  {
    var p := s.pool;
    match e
    case Submit(job, first, created) =>
      s.(pool := Execute(p, job, first, created),
         submitted := s.submitted + [job],
         kept := if Drops(p) then s.kept else s.kept + [job],
         started := if p.idle != map[] || (|p.busy| < p.maxThreads && p.handsOver) then s.started + [job]
                    else s.started)
    case WorkerEnds(t) =>
      s.(pool := p.(busy := p.busy[t := Done]), notices := s.notices + [t])
    case HandleFinished(newTimer) =>
      var t := s.notices[0];
      s.(pool := Finished(p, t, newTimer),
         notices := s.notices[1..],
         started := if t in p.busy && !p.busy[t].IsBusy() && p.buffer != [] then s.started + [p.buffer[0]]
                    else s.started)
    case HandleTimeout(timer) => s.(pool := Timeout(p, timer))
  }

  ghost predicate LegalRun(s: System, events: seq<Event>)
    decreases |events|
  {
    events == [] || (Legal(s, events[0]) && LegalRun(Step(s, events[0]), events[1..]))
  }

  ghost function Run(s: System, events: seq<Event>): System
    requires LegalRun(s, events)
    decreases |events|
  {
    if events == [] then s else Run(Step(s, events[0]), events[1..])
  }

  // ---- invariants

  ghost predicate Inverse(timerOf: map<ThreadId, TimerId>, threadOf: map<TimerId, ThreadId>) {
    && (forall t | t in timerOf :: timerOf[t] in threadOf && threadOf[timerOf[t]] == t)
    && (forall i | i in threadOf :: threadOf[i] in timerOf && timerOf[threadOf[i]] == i)
  }

  /** Bounded, and work-conserving: jobs wait only while every thread there may be is busy. */
  ghost predicate Bounded(p: Pool) {
    && p.busy.Keys !! p.idle.Keys
    && |p.busy| + |p.idle| <= p.maxThreads
    && (p.buffer != [] ==> p.idle == map[] && |p.busy| == p.maxThreads)
  }

  /** An idle thread is one with a timer, and the two timer maps are exact inverses. */
  ghost predicate Timed(p: Pool) {
    p.timerOf.Keys == p.idle.Keys && Inverse(p.timerOf, p.threadOf)
  }

  ghost predicate Workers(s: System) {
    && (forall t | t in s.pool.idle :: s.pool.idle[t] == Done)
    && (forall t :: t in s.notices <==> t in s.pool.busy && s.pool.busy[t] == Done)
    && (forall i, j | 0 <= i < j < |s.notices| :: s.notices[i] != s.notices[j])
    && (s.pool.error == NoError || s.pool.error == UnknownTimerId)
  }

  ghost predicate Ordered(s: System) {
    && s.started + s.pool.buffer == s.kept
    && (s.pool.handsOver ==> s.kept == s.submitted && forall t | t in s.pool.busy :: s.pool.busy[t] != Created)
    && (!s.pool.handsOver ==> s.started == [] && s.pool.idle == map[] && forall t | t in s.pool.busy ::
          s.pool.busy[t] == Created)
  }

  ghost predicate Inv(s: System) {
    Bounded(s.pool) && Timed(s.pool) && Workers(s) && Ordered(s)
  }

  lemma InitInv(maxThreads: nat, handsOver: bool)
    ensures Inv(Init(maxThreads, handsOver))
  {}

  lemma StopTimerKeeps(p: Pool, t: ThreadId)
    requires Timed(p) && t in p.idle
    ensures var q := StopTimer(p, t);
            q == p.(timerOf := p.timerOf - {t}, threadOf := p.threadOf - {p.timerOf[t]})
            && Inverse(q.timerOf, q.threadOf)
  {}

  lemma SubmitKeepsPool(s: System, job: Job, first: ThreadId, created: ThreadId)
    requires Inv(s) && Legal(s, Submit(job, first, created))
    ensures Bounded(Step(s, Submit(job, first, created)).pool) && Timed(Step(s, Submit(job, first, created)).pool)
  {
    hide Workers, Ordered, Inverse;
    var p := s.pool;
    if p.idle != map[] {
      StopTimerKeeps(p, first);
      Maps.Put(p.busy, first, Running(job));
      Maps.Drop(p.idle, first);
      assert p.buffer == [];
    } else if |p.busy| < p.maxThreads {
      Maps.Put(p.busy, created, if p.handsOver then Running(job) else Created);
    }
  }

  lemma SubmitKeepsWorkers(s: System, job: Job, first: ThreadId, created: ThreadId)
    requires Inv(s) && Legal(s, Submit(job, first, created))
    ensures Workers(Step(s, Submit(job, first, created)))
  {
    hide Ordered, Inverse, Timed, StopTimer, Workers;
    var p, s' := s.pool, Step(s, Submit(job, first, created));
    if p.idle != map[] {
      StopTimerKeeps(p, first);
      OneMoreBusy(s, s', first, Running(job));
    } else if |p.busy| < p.maxThreads {
      OneMoreBusy(s, s', created, if p.handsOver then Running(job) else Created);
    } else {
      SameWorkers(s, s');
    }
  }

  lemma SameWorkers(s: System, s': System)
    requires Workers(s) && s'.notices == s.notices && s'.pool == s.pool.(buffer := s'.pool.buffer)
    ensures Workers(s')
  {}

  /** A thread put to work that no notice was of. */
  lemma OneMoreBusy(s: System, s': System, t: ThreadId, work: Worker)
    requires Workers(s) && t !in s.pool.busy && work != Done
    requires s'.notices == s.notices && s'.pool.error == s.pool.error
    requires s'.pool.busy == s.pool.busy[t := work] && s'.pool.idle == s.pool.idle - {t}
    ensures Workers(s')
  {}

  lemma SubmitKeepsOrder(s: System, job: Job, first: ThreadId, created: ThreadId)
    requires Inv(s) && Legal(s, Submit(job, first, created))
    ensures Ordered(Step(s, Submit(job, first, created)))
  {
    hide Bounded, Workers, Timed, StopTimer, Ordered;
    var p, s' := s.pool, Step(s, Submit(job, first, created));
    if p.idle != map[] {
      NoBuffer(p);
      StopTimerKeeps(p, first);
      IdleMeansHandsOver(s);
      JobStarted(s, s', job, first);
    } else if |p.busy| < p.maxThreads {
      NoBuffer(p);
      if p.handsOver { JobStarted(s, s', job, created); } else { JobDropped(s, s', created); }
    } else {
      JobWaits(s, s', job);
    }
  }

  lemma IdleMeansHandsOver(s: System)
    requires Ordered(s) && s.pool.idle != map[]
    ensures s.pool.handsOver
  {}

  lemma JobStarted(s: System, s': System, job: Job, t: ThreadId)
    requires Ordered(s) && s.pool.handsOver && s'.pool.handsOver && s.pool.buffer == s'.pool.buffer == []
    requires s'.started == s.started + [job] && s'.kept == s.kept + [job] && s'.submitted == s.submitted + [job]
    requires s'.pool.busy == s.pool.busy[t := Running(job)]
    ensures Ordered(s')
  {
    assert s.started + [] == s.started && s'.started + [] == s'.started;
  }

  lemma JobDropped(s: System, s': System, t: ThreadId)
    requires Ordered(s) && !s.pool.handsOver && !s'.pool.handsOver && s'.pool.buffer == s.pool.buffer
    requires s'.started == s.started && s'.kept == s.kept
    requires s'.pool.busy == s.pool.busy[t := Created] && s'.pool.idle == s.pool.idle
    ensures Ordered(s')
  {}

  lemma JobWaits(s: System, s': System, job: Job)
    requires Ordered(s) && s'.pool == s.pool.(buffer := s.pool.buffer + [job])
    requires s'.started == s.started && s'.kept == s.kept + [job] && s'.submitted == s.submitted + [job]
    ensures Ordered(s')
  {
    assert s.started + (s.pool.buffer + [job]) == s.started + s.pool.buffer + [job];
  }

  lemma NoBuffer(p: Pool)
    requires Bounded(p) && (p.idle != map[] || |p.busy| < p.maxThreads)
    ensures p.buffer == []
  {}

  lemma FinishedKeepsPool(s: System, newTimer: TimerId)
    requires Inv(s) && Legal(s, HandleFinished(newTimer))
    ensures Bounded(Step(s, HandleFinished(newTimer)).pool) && Timed(Step(s, HandleFinished(newTimer)).pool)
  {
    hide Ordered, Inverse, StartTimer, Timed, Bounded;
    var p, t := s.pool, s.notices[0];
    assert t in s.notices && t in p.busy && p.busy[t] == Done;
    if p.buffer != [] {
      NextJobKeeps(p, t);
    } else {
      ParkKeeps(p, t, newTimer);
    }
  }

  lemma NextJobKeeps(p: Pool, t: ThreadId)
    requires Bounded(p) && Timed(p) && t in p.busy && p.buffer != []
    ensures var q := p.(buffer := p.buffer[1..], busy := p.busy[t := Running(p.buffer[0])]); Bounded(q) && Timed(q)
  {
    Maps.Put(p.busy, t, Running(p.buffer[0]));
  }

  lemma ParkKeeps(p: Pool, t: ThreadId, newTimer: TimerId)
    requires Bounded(p) && Timed(p) && t in p.busy && p.buffer == [] && newTimer !in p.threadOf
    ensures var q := StartTimer(p.(idle := p.idle[t := p.busy[t]], busy := p.busy - {t}), t, newTimer);
           Bounded(q) && Timed(q)
  {
    hide Inverse, Bounded;
    assert t !in p.idle && p.timerOf[t := newTimer].Keys == p.idle[t := p.busy[t]].Keys by { NotBoth(p, t); }
    FreshTimerIff(p, t, newTimer);
    ParkBounded(p, StartTimer(p.(idle := p.idle[t := p.busy[t]], busy := p.busy - {t}), t, newTimer), t);
  }

  lemma NotBoth(p: Pool, t: ThreadId)
    requires Bounded(p) && t in p.busy
    ensures t !in p.idle
  {}

  lemma ParkBounded(p: Pool, q: Pool, t: ThreadId)
    requires Bounded(p) && t in p.busy && p.buffer == q.buffer == [] && q.maxThreads == p.maxThreads
    requires q.busy == p.busy - {t} && q.idle == p.idle[t := p.busy[t]]
    ensures Bounded(q)
  {
    Maps.Drop(p.busy, t);
    Maps.Put(p.idle, t, p.busy[t]);
  }

  lemma FinishedKeepsWorkers(s: System, newTimer: TimerId)
    requires Inv(s) && Legal(s, HandleFinished(newTimer))
    ensures Workers(Step(s, HandleFinished(newTimer)))
  {
    hide Ordered, Timed, Bounded, Inverse, Workers;
    FrontNotice(s);
    var p, t, s' := s.pool, s.notices[0], Step(s, HandleFinished(newTimer));
    if p.buffer != [] {
      NoticeHandled(s, s', Running(p.buffer[0]));
    } else {
      WorkerParked(s, s');
    }
  }

  lemma NoticeHandled(s: System, s': System, work: Worker)
    requires Workers(s) && s.notices != [] && s'.notices == s.notices[1..] && work != Done
    requires s'.pool.error == s.pool.error && s'.pool.idle == s.pool.idle
           && s'.pool.busy == s.pool.busy[s.notices[0] := work]
    ensures Workers(s')
  {
    FrontNotice(s);
  }

  lemma WorkerParked(s: System, s': System)
    requires Workers(s) && s.notices != [] && s'.notices == s.notices[1..]
    requires s.notices[0] in s.pool.busy && s'.pool.error == s.pool.error
    requires s'.pool.busy == s.pool.busy - {s.notices[0]}
    requires s'.pool.idle == s.pool.idle[s.notices[0] := s.pool.busy[s.notices[0]]]
    ensures Workers(s')
  {
    FrontNotice(s);
  }

  /** The first notice is of a worker that is done, and no other notice is of it. */
  lemma FrontNotice(s: System)
    requires Workers(s) && s.notices != []
    ensures var t, rest := s.notices[0], s.notices[1..];
            && t in s.pool.busy && s.pool.busy[t] == Done
            && (forall u :: u in rest <==> u in s.pool.busy && s.pool.busy[u] == Done && u != t)
            && (forall i, j | 0 <= i < j < |rest| :: rest[i] != rest[j])
  {
    var t, rest := s.notices[0], s.notices[1..];
    assert t in s.notices;
    assert forall u :: u in s.notices <==> u == t || u in rest;
  }

  lemma FinishedKeepsOrder(s: System, newTimer: TimerId)
    requires Inv(s) && Legal(s, HandleFinished(newTimer))
    ensures Ordered(Step(s, HandleFinished(newTimer)))
  {
    hide Timed, Bounded;
    var p, t := s.pool, s.notices[0];
    assert t in s.notices && t in p.busy && p.busy[t] == Done;
    if p.buffer != [] {
      assert s.started + [p.buffer[0]] + p.buffer[1..] == s.started + p.buffer;
    }
  }

  lemma TimeoutKeeps(s: System, timer: TimerId)
    requires Inv(s)
    ensures Inv(Step(s, HandleTimeout(timer)))
  {
    var p, p' := s.pool, Step(s, HandleTimeout(timer)).pool;
    if timer in p.threadOf {
      assert p'.idle.Keys == p.idle.Keys - {p.threadOf[timer]};
    }
  }

  lemma WorkerEndsKeeps(s: System, t: ThreadId)
    requires Inv(s) && Legal(s, WorkerEnds(t))
    ensures Inv(Step(s, WorkerEnds(t)))
  {
    hide Timed, Workers;
    var s' := Step(s, WorkerEnds(t));
    assert s'.pool.busy.Keys == s.pool.busy.Keys;
    NoticeGiven(s, t);
    TimedAlike(s.pool, s'.pool);
  }

  lemma NoticeGiven(s: System, t: ThreadId)
    requires Workers(s) && Legal(s, WorkerEnds(t))
    ensures Workers(Step(s, WorkerEnds(t)))
  {
    assert forall u :: u in s.notices + [t] <==> u in s.notices || u == t;
  }

  lemma TimedAlike(p: Pool, q: Pool)
    requires Timed(p) && q.timerOf == p.timerOf && q.threadOf == p.threadOf && q.idle == p.idle
    ensures Timed(q)
  {}

  lemma StepKeeps(s: System, e: Event)
    requires Inv(s) && Legal(s, e)
    ensures Inv(Step(s, e))
  {
    hide Step, Bounded, Timed, Workers, Ordered;
    match e
    case Submit(job, first, created) =>
      SubmitKeepsPool(s, job, first, created);
      SubmitKeepsWorkers(s, job, first, created);
      SubmitKeepsOrder(s, job, first, created);
    case WorkerEnds(t) => WorkerEndsKeeps(s, t);
    case HandleFinished(newTimer) =>
      FinishedKeepsPool(s, newTimer);
      FinishedKeepsWorkers(s, newTimer);
      FinishedKeepsOrder(s, newTimer);
    case HandleTimeout(timer) => TimeoutKeeps(s, timer);
  }

  lemma StepFixes(s: System, e: Event)
    requires Legal(s, e)
    ensures Step(s, e).pool.maxThreads == s.pool.maxThreads && Step(s, e).pool.handsOver == s.pool.handsOver
  {
    match e
    case Submit(_, _, _) =>
    case WorkerEnds(_) =>
    case HandleFinished(_) =>
    case HandleTimeout(_) =>
  }

  lemma {:induction false} RunKeeps(s: System, events: seq<Event>)
    requires Inv(s) && LegalRun(s, events)
    ensures Inv(Run(s, events))
    ensures Run(s, events).pool.maxThreads == s.pool.maxThreads && Run(s, events).pool.handsOver == s.pool.handsOver
    decreases |events|
  {
    hide Step, Inv, Legal;
    if events != [] {
      StepKeeps(s, events[0]);
      StepFixes(s, events[0]);
      RunKeeps(Step(s, events[0]), events[1..]);
    }
  }

  // ---- what the workers do

  /** Thread `t` was set to work between `p` and `q`. */
  ghost predicate SetToWork(p: Pool, q: Pool, t: ThreadId) {
    t in q.busy && q.busy[t].Running? && !(t in p.busy && p.busy[t].Running?)
  }

  /** The job that a worker was set to work on between `p` and `q`, if one was. */
  ghost function Begun(p: Pool, q: Pool): seq<Job> {
    if exists t :: SetToWork(p, q, t) then
      var t :| SetToWork(p, q, t);
      [q.busy[t].job]
    else []
  }

  /** The jobs workers were set to work on in the run, one after the other, as the pool shows them. */
  ghost function Work(s: System, events: seq<Event>): seq<Job>
    requires LegalRun(s, events)
    decreases |events|
  {
    if events == [] then []
    else Begun(s.pool, Step(s, events[0]).pool) + Work(Step(s, events[0]), events[1..])
  }

  /** The jobs submitted, in order. */
  function Jobs(events: seq<Event>): seq<Job> {
    if events == [] then []
    else (if events[0].Submit? then [events[0].job] else []) + Jobs(events[1..])
  }

  /** Only `t` is set to work, if any thread is. */
  lemma BegunIs(p: Pool, q: Pool, t: ThreadId)
    requires forall u | SetToWork(p, q, u) :: u == t
    ensures Begun(p, q) == if SetToWork(p, q, t) then [q.busy[t].job] else []
  {}

  /**
    One thread at most is set to work at a time. A worker at work keeps its job until it ends, and
    nothing else ends it.
   */
  lemma OneAtATime(s: System, e: Event)
    requires Inv(s) && Legal(s, e)
    ensures var p, q := s.pool, Step(s, e).pool;
            && (forall t, u | SetToWork(p, q, t) && SetToWork(p, q, u) :: t == u)
            && (forall t | t in p.busy && p.busy[t].Running? ::
                  t in q.busy && q.busy[t] == if e == WorkerEnds(t) then Done else p.busy[t])
  {
    hide Ordered, Timed;
    match e
    case Submit(_, first, _) => if s.pool.idle != map[] { StopLeaves(s.pool, first); }
    case WorkerEnds(_) =>
    case HandleFinished(_) => FrontNotice(s);
    case HandleTimeout(_) =>
  }

  lemma StopLeaves(p: Pool, t: ThreadId)
    ensures var q := StopTimer(p, t); q.busy == p.busy && q.idle == p.idle && q.buffer == p.buffer
  {}

  /** If `busy` only changed at `t`, no other thread was set to work. */
  lemma OneChanged(p: Pool, q: Pool, t: ThreadId, work: Worker)
    requires q.busy == p.busy[t := work] && !(t in p.busy && p.busy[t].Running?)
    ensures Begun(p, q) == if work.Running? then [work.job] else []
  {
    assert SetToWork(p, q, t) <==> work.Running?;
    BegunIs(p, q, t);
  }

  lemma NoneBegun(p: Pool, q: Pool)
    requires q.busy == p.busy || exists t :: q.busy == p.busy - {t}
    ensures Begun(p, q) == []
  {}

  lemma SubmitWorks(s: System, job: Job, first: ThreadId, created: ThreadId)
    requires Inv(s) && Legal(s, Submit(job, first, created))
    ensures var s' := Step(s, Submit(job, first, created)); s'.started == s.started + Begun(s.pool, s'.pool)
  {
    var p, s' := s.pool, Step(s, Submit(job, first, created));
    hide Ordered, Timed, Workers, Begun, SetToWork, StopTimer;
    NothingMore(s.started);
    if p.idle != map[] {
      StopLeaves(p, first);
      OneChanged(p, s'.pool, first, Running(job));
    } else if |p.busy| < p.maxThreads {
      OneChanged(p, s'.pool, created, if p.handsOver then Running(job) else Created);
    } else {
      NoneBegun(p, s'.pool);
    }
  }

  lemma FinishedWorks(s: System, newTimer: TimerId)
    requires Inv(s) && Legal(s, HandleFinished(newTimer))
    ensures var s' := Step(s, HandleFinished(newTimer)); s'.started == s.started + Begun(s.pool, s'.pool)
  {
    var p, s' := s.pool, Step(s, HandleFinished(newTimer));
    FrontNotice(s);
    hide Ordered, Timed, Workers, Bounded, Begun, SetToWork;
    NothingMore(s.started);
    if p.buffer != [] {
      OneChanged(p, s'.pool, s.notices[0], Running(p.buffer[0]));
    } else {
      assert s'.pool.busy == p.busy - {s.notices[0]};
      NoneBegun(p, s'.pool);
    }
  }

  lemma NothingMore<T>(s: seq<T>)
    ensures s + [] == s && [] + s == s
  {}

  lemma StepWorks(s: System, e: Event)
    requires Inv(s) && Legal(s, e)
    ensures Step(s, e).started == s.started + Begun(s.pool, Step(s, e).pool)
  {
    hide Inv, Begun, Execute, Finished;
    match e
    case Submit(job, first, created) => SubmitWorks(s, job, first, created);
    case WorkerEnds(t) =>
      NothingMore(s.started);
      WorkerEndsWorks(s.pool, t);
    case HandleFinished(newTimer) => FinishedWorks(s, newTimer);
    case HandleTimeout(timer) =>
      NothingMore(s.started);
      NoneBegun(s.pool, Timeout(s.pool, timer));
  }

  lemma WorkerEndsWorks(p: Pool, t: ThreadId)
    ensures Begun(p, p.(busy := p.busy[t := Done])) == []
  {}

  lemma StepSubmits(s: System, e: Event)
    requires Legal(s, e)
    ensures Step(s, e).submitted == s.submitted + if e.Submit? then [e.job] else []
  {
    hide Execute, Finished, Timeout;
    NothingMore(s.submitted);
  }

  lemma {:induction false} RunWorks(s: System, events: seq<Event>)
    requires Inv(s) && LegalRun(s, events)
    ensures Run(s, events).started == s.started + Work(s, events)
    ensures Run(s, events).submitted == s.submitted + Jobs(events)
    decreases |events|
  {
    hide Inv, Step, Legal, Begun;
    if events != [] {
      StepKeeps(s, events[0]);
      StepWorks(s, events[0]);
      StepSubmits(s, events[0]);
      RunWorks(Step(s, events[0]), events[1..]);
    }
  }

  ghost function Threads(p: Pool): set<ThreadId> {
    p.busy.Keys + p.idle.Keys
  }

  /**
    A thread is made only if none is idle and there is room, and an idle one is used if there is one;
    the thread of an ended worker stays, and only the timeout of an idle one ends it.
   */
  lemma ThreadsReused(s: System, e: Event)
    requires Inv(s) && Legal(s, e)
    ensures var p, q := s.pool, Step(s, e).pool;
            match e
            case Submit(_, first, created) =>
              && Threads(q) == Threads(p) + (if p.idle == map[] && |p.busy| < p.maxThreads then {created} else {})
              && (p.idle != map[] ==> first in q.busy)
            case WorkerEnds(_) => Threads(q) == Threads(p)
            case HandleFinished(_) => Threads(q) == Threads(p)
            case HandleTimeout(timer) =>
              Threads(q) == Threads(p) - (if timer in p.threadOf then {p.threadOf[timer]} else {})
  {
    hide Inv, Step, Threads;
    match e
    case Submit(job, first, created) => SubmitReuses(s, job, first, created);
    case WorkerEnds(t) => EndsReuses(s, t);
    case HandleFinished(newTimer) => FinishedReuses(s, newTimer);
    case HandleTimeout(timer) => TimeoutReuses(s, timer);
  }

  lemma SubmitReuses(s: System, job: Job, first: ThreadId, created: ThreadId)
    requires Legal(s, Submit(job, first, created))
    ensures var p, q := s.pool, Step(s, Submit(job, first, created)).pool;
            && Threads(q) == Threads(p) + (if p.idle == map[] && |p.busy| < p.maxThreads then {created} else {})
            && (p.idle != map[] ==> first in q.busy)
  {
    var p, q := s.pool, Step(s, Submit(job, first, created)).pool;
    StopLeaves(p, first);
    hide StopTimer, Threads;
    NoneMore(Threads(p));
    if p.idle != map[] {
      IdleUsed(p, q, first, Running(job));
    } else if |p.busy| < p.maxThreads {
      ThreadMade(p, q, created, if p.handsOver then Running(job) else Created);
    } else {
      SameThreads(p, q);
    }
  }

  lemma NoneMore<T>(a: set<T>)
    ensures a + {} == a
  {}

  lemma IdleUsed(p: Pool, q: Pool, t: ThreadId, work: Worker)
    requires t in p.idle && q.busy == p.busy[t := work] && q.idle == p.idle - {t}
    ensures Threads(q) == Threads(p) && t in q.busy
  {
    forall u ensures u in Threads(q) <==> u in Threads(p) {}
  }

  lemma ThreadMade(p: Pool, q: Pool, t: ThreadId, work: Worker)
    requires q.busy == p.busy[t := work] && q.idle == p.idle
    ensures Threads(q) == Threads(p) + {t}
  {}

  lemma SameThreads(p: Pool, q: Pool)
    requires q.busy == p.busy && q.idle == p.idle
    ensures Threads(q) == Threads(p)
  {}

  lemma EndsReuses(s: System, t: ThreadId)
    requires Legal(s, WorkerEnds(t))
    ensures Threads(Step(s, WorkerEnds(t)).pool) == Threads(s.pool)
  {}

  lemma FinishedReuses(s: System, newTimer: TimerId)
    requires Inv(s) && Legal(s, HandleFinished(newTimer))
    ensures Threads(Step(s, HandleFinished(newTimer)).pool) == Threads(s.pool)
  {
    FrontNotice(s);
    hide Inv;
  }

  lemma TimeoutReuses(s: System, timer: TimerId)
    requires Inv(s)
    ensures Threads(Step(s, HandleTimeout(timer)).pool)
         == Threads(s.pool) - (if timer in s.pool.threadOf then {s.pool.threadOf[timer]} else {})
  {
    hide Workers, Ordered;
  }

  /** A notice of a thread that is not busy, or of one still at work, changes nothing but the last error. */
  lemma BadNotice(p: Pool, t: ThreadId, newTimer: TimerId)
    ensures t !in p.busy ==> Finished(p, t, newTimer) == p.(error := UnknownThreadId)
    ensures t in p.busy && p.busy[t] != Done ==> Finished(p, t, newTimer) == p.(error := BusyThreadResource)
  {}

  // ---- main results

  /** In every reachable state the pool is bounded, work-conserving, and times exactly its idle threads. */
  lemma PoolInvariant(maxThreads: nat, handsOver: bool, events: seq<Event>)
    requires LegalRun(Init(maxThreads, handsOver), events)
    ensures var p := Run(Init(maxThreads, handsOver), events).pool;
            && p.busy.Keys !! p.idle.Keys && |p.busy| + |p.idle| <= maxThreads
            && (p.buffer != [] ==> p.idle == map[] && |p.busy| == maxThreads)
            && p.timerOf.Keys == p.idle.Keys && Inverse(p.timerOf, p.threadOf)
            && p.error != UnknownThreadId && p.error != BusyThreadResource
  {
    InitInv(maxThreads, handsOver);
    RunKeeps(Init(maxThreads, handsOver), events);
  }

  /**
    With new workers given their job, jobs start in submission order and none is lost: the jobs that
    workers were set to work on, one after the other, followed by those that wait, are the jobs submitted.
   */
  lemma JobsInOrder(maxThreads: nat, events: seq<Event>)
    requires LegalRun(Init(maxThreads, true), events)
    ensures Work(Init(maxThreads, true), events) + Run(Init(maxThreads, true), events).pool.buffer == Jobs(events)
  {
    InitInv(maxThreads, true);
    RunKeeps(Init(maxThreads, true), events);
    RunWorks(Init(maxThreads, true), events);
    NothingMore(Work(Init(maxThreads, true), events));
    NothingMore(Jobs(events));
    hide Run, LegalRun, Work, Jobs;
  }

  /** When no worker runs and no notice is left, every job submitted was worked on. */
  lemma QuietMeansAllStarted(maxThreads: nat, events: seq<Event>)
    requires maxThreads > 0 && LegalRun(Init(maxThreads, true), events)
    requires var s := Run(Init(maxThreads, true), events);
           s.notices == [] && forall t | t in s.pool.busy :: !s.pool.busy[t].Running?
    ensures Work(Init(maxThreads, true), events) == Jobs(events)
  {
    InitInv(maxThreads, true);
    RunKeeps(Init(maxThreads, true), events);
    var s := Run(Init(maxThreads, true), events);
    NoticeLess(s);
    assert s.pool.busy == map[];
    JobsInOrder(maxThreads, events);
  }

  lemma NoticeLess(s: System)
    requires Workers(s) && s.notices == []
    ensures forall t | t in s.pool.busy :: s.pool.busy[t] != Done
  {}

  /**
    As the code stands, no job is ever started; and none is lost if and only if there is nothing
    to lose or no thread to lose it to.
   */
  lemma AsWrittenNothingStarts(maxThreads: nat, events: seq<Event>)
    requires LegalRun(Init(maxThreads, false), events)
    ensures Work(Init(maxThreads, false), events) == []
    ensures Run(Init(maxThreads, false), events).pool.buffer == Jobs(events) <==> maxThreads == 0 || Jobs(events) == []
  {
    InitInv(maxThreads, false);
    RunKeeps(Init(maxThreads, false), events);
    RunWorks(Init(maxThreads, false), events);
    NothingMore(Work(Init(maxThreads, false), events));
    NothingMore(Jobs(events));
    hide Work, Jobs;
    Lost(Init(maxThreads, false), events);
  }

  /** Once the first job is gone, the buffer stays shorter than the submissions. */
  lemma {:induction false} Lost(s: System, events: seq<Event>)
    requires Inv(s) && !s.pool.handsOver && LegalRun(s, events)
    requires |s.kept| <= |s.submitted|
    requires s.pool.maxThreads == 0 ==> s.kept == s.submitted
    requires s.pool.maxThreads > 0 ==> if s.submitted == [] then s.pool.busy == map[] else |s.kept| < |s.submitted|
    ensures var s' := Run(s, events);
            s'.kept == s'.submitted <==> s.pool.maxThreads == 0 || s'.submitted == []
    decreases |events|
  {
    if events != [] {
      StepKeeps(s, events[0]);
      StepLoses(s, events[0]);
      hide Inv, Step, Legal;
      Lost(Step(s, events[0]), events[1..]);
    }
  }

  lemma StepLoses(s: System, e: Event)
    requires Inv(s) && !s.pool.handsOver && Legal(s, e)
    requires |s.kept| <= |s.submitted|
    requires s.pool.maxThreads == 0 ==> s.kept == s.submitted
    requires s.pool.maxThreads > 0 ==> if s.submitted == [] then s.pool.busy == map[] else |s.kept| < |s.submitted|
    ensures var s' := Step(s, e);
            && s'.pool.handsOver == s.pool.handsOver && s'.pool.maxThreads == s.pool.maxThreads
            && |s'.kept| <= |s'.submitted|
            && (s.pool.maxThreads == 0 ==> s'.kept == s'.submitted)
            && (s.pool.maxThreads > 0 ==>
                  if s'.submitted == [] then s'.pool.busy == map[] else |s'.kept| < |s'.submitted|)
  {
    hide Timed, Inverse;
  }

  /** No worker is parked with timer `id`. */
  ghost predicate NotGivenOut(events: seq<Event>, id: TimerId) {
    forall i | 0 <= i < |events| :: events[i] != HandleFinished(id)
  }

  lemma StepAddsNone(s: System, e: Event, id: TimerId)
    requires Legal(s, e) && id !in s.pool.threadOf && e != HandleFinished(id)
    ensures id !in Step(s, e).pool.threadOf
  {
    match e
    case Submit(_, _, _) =>
    case WorkerEnds(_) =>
    case HandleFinished(_) =>
    case HandleTimeout(_) =>
  }

  /** A timer off the record stays off it until its id is given out again. */
  lemma {:induction false} GoneStaysGone(s: System, events: seq<Event>, id: TimerId)
    requires LegalRun(s, events) && id !in s.pool.threadOf && NotGivenOut(events, id)
    ensures id !in Run(s, events).pool.threadOf
    decreases |events|
  {
    hide Step, Legal;
    if events != [] {
      StepAddsNone(s, events[0], id);
      assert forall i | 0 <= i < |events[1..]| :: events[1..][i] == events[i + 1];
      GoneStaysGone(Step(s, events[0]), events[1..], id);
    }
  }

  /** A timeout leaves everything but the last error alone if and only if its timer is not on record. */
  lemma TimeoutIsHarmlessIff(p: Pool, id: TimerId)
    requires Timed(p)
    ensures Timeout(p, id) == p.(error := UnknownTimerId) <==> id !in p.threadOf
    ensures id in p.threadOf ==>
              && p.threadOf[id] in p.idle && Timeout(p, id).idle == p.idle - {p.threadOf[id]}
              && Timeout(p, id).error == p.error && Timeout(p, id).busy == p.busy && Timeout(p, id).buffer == p.buffer
  {
    if id in p.threadOf {
      var t := p.threadOf[id];
      assert t in p.timerOf.Keys && t in p.idle.Keys;
    }
  }

  /**
    The timeout of a timer whose thread was given a job again, arriving after any further events:
    it changes nothing but the last error unless its id is back on record, and that takes its
    having been given out again since.
   */
  lemma StaleTimeoutIsHarmless(s: System, job: Job, first: ThreadId, created: ThreadId, events: seq<Event>)
    requires Inv(s) && s.pool.idle != map[] && Legal(s, Submit(job, first, created))
    requires LegalRun(Step(s, Submit(job, first, created)), events)
    ensures var p := Run(Step(s, Submit(job, first, created)), events).pool;
            var stale := s.pool.timerOf[first];
            && (Timeout(p, stale) == p.(error := UnknownTimerId) <==> stale !in p.threadOf)
            && (stale in p.threadOf ==> exists i :: 0 <= i < |events| && events[i] == HandleFinished(stale))
  {
    var e := Submit(job, first, created);
    var stale := s.pool.timerOf[first];
    StopTimerKeeps(s.pool, first);
    assert stale !in Step(s, e).pool.threadOf;
    StepKeeps(s, e);
    RunKeeps(Step(s, e), events);
    hide Step, Legal;
    TimeoutIsHarmlessIff(Run(Step(s, e), events).pool, stale);
    if NotGivenOut(events, stale) { GoneStaysGone(Step(s, e), events, stale); }
  }

  /** Starting a timer keeps the two maps inverse if and only if its id is not in use. */
  lemma FreshTimerIff(p: Pool, t: ThreadId, newTimer: TimerId)
    requires Inverse(p.timerOf, p.threadOf) && t !in p.timerOf
    ensures var q := StartTimer(p, t, newTimer);
            Inverse(q.timerOf, q.threadOf) <==> newTimer !in p.threadOf
  {
    var q := StartTimer(p, t, newTimer);
    if newTimer in p.threadOf {
      var u := p.threadOf[newTimer];
      assert u in q.timerOf && q.timerOf[u] == newTimer && q.threadOf[newTimer] == t != u;
    }
  }
}
