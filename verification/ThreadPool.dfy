/** The thread pool's handlers, updating its maps in place, proved against ThreadPoolSpec. */
module ThreadPool {
  import opened ThreadPoolSpec

  class ThreadPool {
    const maxThreads: nat
    const handsOver: bool
    var busy: map<ThreadId, Worker>
    var idle: map<ThreadId, Worker>
    var functionBuffer: seq<Job>
    var timerOf: map<ThreadId, TimerId>
    var threadOf: map<TimerId, ThreadId>
    var error: ErrorCode

    /** The pool's whole state as a value. */
    function Abs(): Pool
      reads this
    {
      Pool(maxThreads, handsOver, busy, idle, functionBuffer, timerOf, threadOf, error)
    }

    constructor (maxThreads: nat, handsOver: bool)
      ensures Abs() == Init(maxThreads, handsOver).pool
    {
      this.maxThreads, this.handsOver := maxThreads, handsOver;
      busy, idle, functionBuffer := map[], map[], [];
      timerOf, threadOf := map[], map[];
      error := NoError;
    }

    /** `first` is the idle map's first key, `created` the id of the thread a call may create. */
    method Execute(job: Job, first: ThreadId, created: ThreadId)
      requires idle != map[] ==> first in idle
      modifies this
      ensures Abs() == ThreadPoolSpec.Execute(old(Abs()), job, first, created)
    {
      if idle != map[] {
        StopTimerByThreadId(first);
        idle := idle - {first};
        busy := busy[first := Running(job)];
      } else if |busy| < maxThreads {
        busy := busy[created := if handsOver then Running(job) else Created];
      } else {
        functionBuffer := functionBuffer + [job];
      }
    }

    method TimerTimeout(timerId: TimerId)
      modifies this
      ensures Abs() == Timeout(old(Abs()), timerId)
    {
      if timerId !in threadOf {
        error := UnknownTimerId;
        return;
      }
      var timedOut := threadOf[timerId];
      threadOf := threadOf - {timerId};
      timerOf := timerOf - {timedOut};
      idle := idle - {timedOut};
    }

    /** `newTimer` is the id the timer gives out if one is started. */
    method ExecutionFinished(finished: ThreadId, newTimer: TimerId)
      modifies this
      ensures Abs() == Finished(old(Abs()), finished, newTimer)
    {
      if finished !in busy {
        error := UnknownThreadId;
        return;
      }
      var worker := busy[finished];
      if worker.IsBusy() {
        error := BusyThreadResource;
        return;
      }
      if functionBuffer != [] {
        var f := functionBuffer[0];
        functionBuffer := functionBuffer[1..];
        busy := busy[finished := Running(f)];
      } else {
        idle := idle[finished := worker];
        busy := busy - {finished};
        StartTimerByThreadId(finished, newTimer);
      }
    }

    method StartTimerByThreadId(t: ThreadId, newTimer: TimerId)
      modifies `threadOf, `timerOf
      ensures Abs() == StartTimer(old(Abs()), t, newTimer)
    {
      threadOf := threadOf[newTimer := t];
      timerOf := timerOf[t := newTimer];
    }

    method StopTimerByThreadId(t: ThreadId)
      modifies `threadOf, `timerOf
      ensures Abs() == StopTimer(old(Abs()), t)
    {
      if t !in timerOf { return; }
      var timerId := timerOf[t];
      if timerId !in threadOf { return; }
      timerOf := timerOf - {t};
      threadOf := threadOf - {timerId};
    }
  }

  /**
    The pool object driven by any legal sequence of events ends in the state the run of the
    specification ends in, so what every run keeps holds of the object.
   */
  method Drive(pool: ThreadPool, s: System, events: seq<Event>) returns (notices: seq<ThreadId>)
    requires pool.Abs() == s.pool && Inv(s) && LegalRun(s, events)
    modifies pool
    ensures pool.Abs() == Run(s, events).pool && notices == Run(s, events).notices
    ensures Inv(Run(s, events))
  {
    notices := s.notices;
    ghost var now := s;
    var i := 0;
    while i < |events|
      invariant 0 <= i <= |events|
      invariant pool.Abs() == now.pool && notices == now.notices
      invariant LegalRun(now, events[i..]) && Run(now, events[i..]) == Run(s, events)
    {
      hide Inv;
      assert events[i..][0] == events[i] && events[i..][1..] == events[i + 1..];
      match events[i] {
        case Submit(job, first, created) => pool.Execute(job, first, created);
        case WorkerEnds(t) =>
          pool.busy := pool.busy[t := Done];
          notices := notices + [t];
        case HandleFinished(newTimer) =>
          pool.ExecutionFinished(notices[0], newTimer);
          notices := notices[1..];
        case HandleTimeout(timer) => pool.TimerTimeout(timer);
      }
      now := Step(now, events[i]);
      i := i + 1;
    }
    RunKeeps(s, events);
  }
}
