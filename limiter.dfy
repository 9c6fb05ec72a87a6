/**
 * `src/limiter.ts`: the `Limiter` class. Its three buckets and its timer handle are
 * fields that `schedule` and `processEntry` update in place; the interval that calls
 * `processEntry` every `minTime` milliseconds is the caller invoking `ProcessEntry`,
 * and running an entry's `fn` (whose outcome settles that entry's own promise) is
 * appending the entry to `dispatched`.
 */
module RateLimiter {
  import opened Wrappers
  import opened Dispatch

  class Limiter<T> {
    /** `minTime`, the interval in milliseconds. */
    var delay: nat
    var high: seq<T>
    var medium: seq<T>
    var low: seq<T>
    /** `id != null`: an interval is running. */
    var timerSet: bool
    var dispatched: seq<T>

    /** The limiter as a dispatcher state. */
    function Model(): State<T>
      reads this
    {
      State(Queues(high, medium, low), timerSet, dispatched)
    }

    predicate Valid()
      reads this
    {
      Dispatch.Valid(Model())
    }

    /** `new Limiter({ minTime, maxConcurrent })`: `maxConcurrent` is accepted and ignored. */
    constructor(minTime: nat, maxConcurrent: nat := 1)
      ensures Model() == Initial() && delay == minTime
      ensures Valid()
    {
      delay := minTime;
      high, medium, low := [], [], [];
      timerSet := false;
      dispatched := [];
    }

    /** `this.queues[priority].shift()`, with `undefined` as `None`. */
    method ShiftBucket(p: Priority) returns (entry: Option<T>)
      modifies this
      ensures Bucket(old(Model()).queues, p) == [] ==> entry.None? && Model() == old(Model())
      ensures Bucket(old(Model()).queues, p) != [] ==>
        entry == Some(Bucket(old(Model()).queues, p)[0]) &&
        Model() == old(Model()).(queues := Shift(old(Model()).queues, p))
      ensures delay == old(delay)
    {
      entry := None;
      match p
      case High =>
        if high != [] {
          entry := Some(high[0]);
          high := high[1..];
        }
      case Medium =>
        if medium != [] {
          entry := Some(medium[0]);
          medium := medium[1..];
        }
      case Low =>
        if low != [] {
          entry := Some(low[0]);
          low := low[1..];
        }
    }

    /**
     * `processEntry()`: walk the buckets high, medium, low; run the first head found
     * and return; with every bucket empty, clear the interval.
     */
    method ProcessEntry()
      modifies this
      ensures Model() == Tick(old(Model()))
      ensures delay == old(delay)
      ensures old(Valid()) ==> Valid()
    {
      ghost var s := Model();
      if Valid() {
        TickValid(s);
      }
      for k := 0 to |Order|
        invariant Model() == s && delay == old(delay)
        invariant forall j :: 0 <= j < k ==> Bucket(s.queues, Order[j]) == []
      {
        var entry := ShiftBucket(Order[k]);
        if entry.Some? {
          FirstNonEmptyAt(s.queues, k);
          dispatched := dispatched + [entry.value];
          return;
        }
      }
      assert Empty(s.queues) by {
        assert Bucket(s.queues, Order[0]) == [] && Bucket(s.queues, Order[1]) == [] && Bucket(s.queues, Order[2]) == [];
      }
      timerSet := false;
    }

    /**
     * `schedule(fn, priority)`: queue the entry at the tail of its bucket; when no
     * interval is running, process one entry at once and start the interval.
     */
    method Schedule(fn: T, priority: Priority := Medium)
      modifies this
      ensures Model() == Submit(old(Model()), priority, fn)
      ensures delay == old(delay)
      ensures old(Valid()) ==> Valid()
    {
      ghost var s := Model();
      if Valid() {
        SubmitValid(s, priority, fn);
      }
      match priority {
        case High => high := high + [fn];
        case Medium => medium := medium + [fn];
        case Low => low := low + [fn];
      }
      assert Model() == s.(queues := Push(s.queues, priority, fn));
      if !timerSet {
        ProcessEntry();
        timerSet := true;
      }
    }
  }

  /** The default priority is medium, and a first call on a new limiter runs at once. */
  method ScheduleDefault<T>(fn: T) returns (limiter: Limiter<T>)
    ensures fresh(limiter)
    ensures limiter.Model() == State(NoQueues(), true, [fn])
  {
    limiter := new Limiter(1000);
    limiter.Schedule(fn);
    SubmitIdle(Initial(), Medium, fn);
  }
}
