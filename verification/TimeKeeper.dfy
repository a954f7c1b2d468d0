/** Giving out 16-bit record ids by probing from a wrapping counter. */
module TimeKeeper {
  import Maps

  const IDS := 0x1_0000
  const NANOS_PER_MILLI := 1_000_000

  /** A `uint16_t`. */
  type Id = x: int | 0 <= x < 0x1_0000

  /** Nanoseconds of the system clock. */
  type Time = int

  datatype Record = Record(id: Id, milliseconds: int, start: Time, end: Time)

  /** The id `n` steps after `start`, around the 16 bits. */
  function At(start: Id, n: nat): Id {
    (start + n) % IDS
  }

  /** `id` is the first id from `start` on that has no record, `n` steps away. */
  ghost predicate FirstFree(book: map<Id, Record>, start: Id, n: nat) {
    At(start, n) !in book && forall k | 0 <= k < n :: At(start, k) in book
  }

  /** One id on, and 0 behind the last. */
  lemma AtNext(start: Id, n: nat)
    ensures At(start, 0) == start
    ensures At(start, n + 1) == if At(start, n) == 0xFFFF then 0 else At(start, n) + 1
  {}

  /** The first free id is the next one up, around the end, with all between them in use. */
  lemma FirstFreeIs(book: map<Id, Record>, start: Id, n: nat)
    requires n < 0x1_0000 && FirstFree(book, start, n)
    ensures At(start, n) !in book
    ensures At(start, n) >= start ==> forall id: Id | start <= id < At(start, n) :: id in book
    ensures At(start, n) < start ==> forall id: Id | start <= id || id < At(start, n) :: id in book
  {
    forall id: Id | (if At(start, n) >= start then start <= id < At(start, n) else start <= id || id < At(start, n))
      ensures id in book
    {
      assert id == At(start, if id >= start then id - start else id + 0x1_0000 - start);
    }
  }

  // ---- the pigeonhole

  ghost function Window(start: Id, n: nat): set<Id> {
    if n == 0 then {} else Window(start, n - 1) + {At(start, n - 1)}
  }

  lemma {:induction false} WindowMembers(start: Id, n: nat, m: nat)
    requires n <= m < n + IDS && m < IDS
    ensures At(start, m) !in Window(start, n)
  {
    if n > 0 {
      WindowMembers(start, n - 1, m);
      AtApart(start, n - 1, m);
    }
  }

  lemma AtApart(start: Id, k: nat, m: nat)
    requires k < m < k + IDS
    ensures At(start, k) != At(start, m)
  {}

  /** The first `n` ids from `start` are `n` different ones. */
  lemma {:induction false} WindowSize(start: Id, n: nat)
    requires n <= IDS
    ensures |Window(start, n)| == n
  {
    if n > 0 {
      WindowSize(start, n - 1);
      WindowMembers(start, n - 1, n - 1);
    }
  }

  lemma {:induction false} WindowWithin(book: map<Id, Record>, start: Id, n: nat)
    requires forall k | 0 <= k < n :: At(start, k) in book
    ensures Window(start, n) <= book.Keys
  {
    if n > 0 { WindowWithin(book, start, n - 1); }
  }

  lemma SubsetSize<T>(a: set<T>, b: set<T>)
    requires a <= b
    ensures |a| <= |b|
  {
    assert b == a + (b - a);
  }

  /** Ids tried in vain are no more than there are records. */
  lemma Pigeonhole(book: map<Id, Record>, start: Id, n: nat)
    requires n <= IDS && forall k | 0 <= k < n :: At(start, k) in book
    ensures n <= |book|
  {
    WindowSize(start, n);
    WindowWithin(book, start, n);
    SubsetSize(Window(start, n), book.Keys);
  }

  lemma {:induction false} Search(book: map<Id, Record>, start: Id, n: nat)
    requires |book| < IDS && n <= |book| && forall k | 0 <= k < n :: At(start, k) in book
    ensures exists m: nat :: m <= |book| && FirstFree(book, start, m)
    decreases |book| - n
  {
    if At(start, n) !in book {
      assert FirstFree(book, start, n);
    } else {
      Pigeonhole(book, start, n + 1);
      Search(book, start, n + 1);
    }
  }

  /** The probe ends, within one lookup more than there are records, if and only if not all ids are in use. */
  lemma ProbeEndsIff(book: map<Id, Record>, start: Id)
    requires |book| <= IDS
    ensures (exists n: nat :: n <= |book| && FirstFree(book, start, n)) <==> |book| < IDS
  {
    if |book| < IDS {
      Search(book, start, 0);
    } else {
      forall n: nat | n <= |book| ensures !FirstFree(book, start, n) {
        AllTaken(book, start, n);
      }
    }
  }

  /** With as many records as ids, every id has one. */
  lemma AllTaken(book: map<Id, Record>, start: Id, n: nat)
    requires |book| == IDS
    ensures At(start, n) in book
  {
    if At(start, n) !in book {
      WindowSize(0, IDS);
      AllIds(At(start, n), IDS);
      forall id: Id | id in book ensures id in Window(0, IDS) { AllIds(id, IDS); }
      SubsetSize(book.Keys, Window(0, IDS) - {At(start, n)});
      assert false;
    }
  }

  lemma {:induction false} AllIds(id: Id, n: nat)
    requires n <= IDS
    ensures id < n ==> id in Window(0, n)
  {
    if n > 0 { AllIds(id, n - 1); }
  }

  // ---- the record book

  datatype Outcome = Added(record: Record) | Past | Full

  /** Every record is kept under its own id, and one id at least is free. */
  ghost predicate Valid(book: map<Id, Record>) {
    (forall id | id in book :: book[id].id == id) && |book| < IDS
  }

  class TimeKeeper {
    var recordBook: map<Id, Record>
    var lastRecordId: Id
    var notification: bool

    constructor ()
      ensures recordBook == map[] && lastRecordId == 0 && !notification
    {
      recordBook, lastRecordId, notification := map[], 0, false;
    }

    /** The first id from `start` on without a record, and how often the book was looked up. */
    method Probe(start: Id) returns (id: Id, lookups: nat)
      requires |recordBook| < IDS
      ensures lookups > 0 && id == At(start, lookups - 1) && FirstFree(recordBook, start, lookups - 1)
      ensures lookups <= |recordBook| + 1
    {
      id, lookups := start, 1;
      while id in recordBook
        invariant lookups > 0 && id == At(start, lookups - 1)
        invariant forall k | 0 <= k < lookups - 1 :: At(start, k) in recordBook
        invariant lookups <= |recordBook| + 1
        decreases |recordBook| + 1 - lookups
      {
        Pigeonhole(recordBook, start, lookups);
        id := (id + 1) % IDS;
        lookups := lookups + 1;
      }
    }

    method AddRecord(now: Time, endTP: Time) returns (r: Outcome)
      requires Valid(recordBook)
      modifies this
      ensures Valid(recordBook)
      ensures r == Past <==> now > endTP
      ensures r == Full <==> now <= endTP && |old(recordBook)| == 0xFFFF
      ensures !r.Added? ==>
        recordBook == old(recordBook) && lastRecordId == old(lastRecordId) && notification == old(notification)
      ensures r.Added? ==>
        && (exists n: nat :: n <= |old(recordBook)| && FirstFree(old(recordBook), old(lastRecordId), n)
              && r.record.id == At(old(lastRecordId), n))
        && recordBook == old(recordBook)[r.record.id := r.record] && |recordBook| == |old(recordBook)| + 1
        && r.record == Record(r.record.id, (endTP - now) / 1_000_000, now, endTP)
        && lastRecordId == At(old(lastRecordId), 1) && notification
    {
      if now > endTP { return Past; }
      if |recordBook| == IDS - 1 { return Full; }
      var start := lastRecordId;
      lastRecordId := (lastRecordId + 1) % IDS;
      var id, lookups := Probe(start);
      var record := Record(id, (endTP - now) / NANOS_PER_MILLI, now, endTP);
      Maps.Put(recordBook, id, record);
      recordBook := recordBook[id := record];
      notification := true;
      return Added(record);
    }

    /** False if the id has no record. */
    method CancelRecord(id: Id) returns (ok: bool)
      requires Valid(recordBook)
      modifies this
      ensures Valid(recordBook)
      ensures ok == (id in old(recordBook)) && lastRecordId == old(lastRecordId)
      ensures recordBook == old(recordBook) - {id} && |recordBook| == |old(recordBook)| - (if ok then 1 else 0)
      ensures notification == (ok || old(notification))
    {
      Maps.Drop(recordBook, id);
      if id !in recordBook {
        assert recordBook - {id} == recordBook;
        return false;
      }
      recordBook := recordBook - {id};
      notification := true;
      return true;
    }
  }

  /** Cancelling a record just added gives the book back as it was. */
  method AddThenCancel(keeper: TimeKeeper, now: Time, endTP: Time)
    requires Valid(keeper.recordBook)
    modifies keeper
    ensures keeper.recordBook == old(keeper.recordBook) && Valid(keeper.recordBook)
  {
    var r := keeper.AddRecord(now, endTP);
    if r.Added? {
      var ok := keeper.CancelRecord(r.record.id);
    }
  }

  datatype Request = Add(now: Time, endTP: Time) | Cancel(id: Id)

  /** Over every run of requests each record stays under its own id, ids differ, and one id is left free. */
  method Serve(requests: seq<Request>) returns (keeper: TimeKeeper, added: nat, cancelled: nat)
    ensures Valid(keeper.recordBook) && |keeper.recordBook| == added - cancelled
    ensures added <= |requests| && keeper.lastRecordId == At(0, added)
  {
    keeper := new TimeKeeper();
    added, cancelled := 0, 0;
    var i := 0;
    hide Valid;
    while i < |requests|
      invariant 0 <= i <= |requests| && fresh(keeper) && Valid(keeper.recordBook)
      invariant |keeper.recordBook| == added - cancelled && added <= i && keeper.lastRecordId == At(0, added)
    {
      match requests[i] {
        case Add(now, endTP) =>
          var r := keeper.AddRecord(now, endTP);
          if r.Added? { added := added + 1; }
        case Cancel(id) =>
          var ok := keeper.CancelRecord(id);
          if ok { cancelled := cancelled + 1; }
      }
      i := i + 1;
    }
  }
}
