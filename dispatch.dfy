/**
 * The priority dispatcher shared by `src/limiter.ts` (`Limiter.schedule` /
 * `processEntry`), `src/Client.ts` and `src/client/v1.js` (`call` / `processQueue`).
 *
 * Three FIFO buckets, `high`, `medium` and `low`, and one timer handle. A timer tick
 * dispatches the head of the first non-empty bucket, taken in the order high, medium,
 * low; a tick that finds every bucket empty clears the timer. Submitting while the
 * timer is clear dispatches at once and sets the timer. What a dispatch does (call
 * `fn`, `fetch`) is recorded in the `dispatched` log; the handle itself is a flag,
 * since its value carries nothing but "a timer is pending".
 */
module Dispatch {
  import opened Wrappers

  datatype Priority = High | Medium | Low

  /** The order `processEntry` / `processQueue` walks the buckets in. */
  const Order: seq<Priority> := [High, Medium, Low]

  function Rank(p: Priority): (k: nat)
    ensures k < |Order| && Order[k] == p
  {
    match p
    case High => 0
    case Medium => 1
    case Low => 2
  }

  datatype Queues<T> = Queues(high: seq<T>, medium: seq<T>, low: seq<T>)

  function NoQueues<T>(): Queues<T> {
    Queues([], [], [])
  }

  /** `queues[priority]`. */
  function Bucket<T>(q: Queues<T>, p: Priority): seq<T> {
    match p
    case High => q.high
    case Medium => q.medium
    case Low => q.low
  }

  predicate Empty<T>(q: Queues<T>) {
    q.high == [] && q.medium == [] && q.low == []
  }

  /** Everything pending, in the order the ticks will dispatch it. */
  function Pending<T>(q: Queues<T>): seq<T> {
    q.high + q.medium + q.low
  }

  function Size<T>(q: Queues<T>): nat {
    |Pending(q)|
  }

  /** `queues[priority].push(x)`: the entry joins the tail of its bucket; no other bucket changes. */
  function Push<T>(q: Queues<T>, p: Priority, x: T): (r: Queues<T>)
    ensures Bucket(r, p) == Bucket(q, p) + [x]
  {
    match p
    case High => q.(high := q.high + [x])
    case Medium => q.(medium := q.medium + [x])
    case Low => q.(low := q.low + [x])
  }

  /** A push changes no other bucket. */
  lemma PushOthers<T>(q: Queues<T>, p: Priority, x: T)
    ensures forall p' :: p' != p ==> Bucket(Push(q, p, x), p') == Bucket(q, p')
  {
  }

  /** `queues[priority].shift()` on a non-empty bucket: its head leaves; no other bucket changes. */
  function Shift<T>(q: Queues<T>, p: Priority): (r: Queues<T>)
    requires Bucket(q, p) != []
    ensures Bucket(r, p) == Bucket(q, p)[1..]
  {
    match p
    case High => q.(high := q.high[1..])
    case Medium => q.(medium := q.medium[1..])
    case Low => q.(low := q.low[1..])
  }

  /** A shift changes no other bucket. */
  lemma ShiftOthers<T>(q: Queues<T>, p: Priority)
    requires Bucket(q, p) != []
    ensures forall p' :: p' != p ==> Bucket(Shift(q, p), p') == Bucket(q, p')
  {
  }

  /** The bucket a tick takes from: the first non-empty one in `Order`. */
  function FirstNonEmpty<T>(q: Queues<T>): (r: Option<Priority>)
    ensures r.None? <==> Empty(q)
    ensures r.Some? ==> Bucket(q, r.value) != []
  {
    if q.high != [] then Some(High)
    else if q.medium != [] then Some(Medium)
    else if q.low != [] then Some(Low)
    else None
  }

  /** Walking `Order`, the first non-empty bucket met is the one a tick takes from. */
  lemma FirstNonEmptyAt<T>(q: Queues<T>, k: nat)
    requires k < |Order| && Bucket(q, Order[k]) != []
    requires forall j :: 0 <= j < k ==> Bucket(q, Order[j]) == []
    ensures FirstNonEmpty(q) == Some(Order[k])
  {
    if k > 0 {
      assert Bucket(q, Order[0]) == [];
    }
    if k > 1 {
      assert Bucket(q, Order[1]) == [];
    }
  }

  /** Every bucket before the one a tick takes from is empty. */
  lemma FirstNonEmptyFirst<T>(q: Queues<T>)
    ensures var r := FirstNonEmpty(q);
      r.Some? ==> forall p :: Rank(p) < Rank(r.value) ==> Bucket(q, p) == []
  {
  }

  /** The dispatcher: its buckets, whether a timer is pending (`id != null`), and what it has dispatched. */
  datatype State<T> = State(queues: Queues<T>, armed: bool, dispatched: seq<T>)

  /** A fresh dispatcher. */
  function Initial<T>(): State<T> {
    State(NoQueues(), false, [])
  }

  /** `id == null` only when nothing is waiting. */
  predicate Valid<T>(s: State<T>) {
    !s.armed ==> Empty(s.queues)
  }

  /** How many entries were ever submitted: those dispatched and those waiting. */
  function Submitted<T>(s: State<T>): nat {
    |s.dispatched| + Size(s.queues)
  }

  /**
   * `processEntry`: dispatch the head of the first non-empty bucket and return, or,
   * with every bucket empty, clear the timer. A dispatch leaves the timer as it is.
   */
  function Tick<T>(s: State<T>): State<T> {
    match FirstNonEmpty(s.queues)
    case None => s.(armed := false)
    case Some(p) => s.(queues := Shift(s.queues, p), dispatched := s.dispatched + [Bucket(s.queues, p)[0]])
  }

  /**
   * `schedule(fn, priority)` / `call(priority, ...)`: push, and when no timer is pending,
   * dispatch once at once and set the timer.
   */
  function Submit<T>(s: State<T>, p: Priority, x: T): State<T> {
    var pushed := s.(queues := Push(s.queues, p, x));
    if s.armed then pushed else Tick(pushed).(armed := true)
  }

  /**
   * `processQueue` of the two clients: like `Tick`, except that a dispatch re-arms a
   * one-shot timeout instead of leaving an interval running.
   */
  function Rearm<T>(s: State<T>): State<T> {
    if Empty(s.queues) then s.(armed := false) else Tick(s).(armed := true)
  }

  /** How many waiting entries go out before one pushed now at priority `p`: every entry in its bucket and in the buckets before it. */
  function Ahead<T>(q: Queues<T>, p: Priority): nat {
    match p
    case High => |q.high|
    case Medium => |q.high| + |q.medium|
    case Low => |q.high| + |q.medium| + |q.low|
  }

  /** The position in the log at which an entry submitted now at priority `p` is sent. */
  function SendIndex<T>(s: State<T>, p: Priority): nat {
    |s.dispatched| + Ahead(s.queues, p)
  }

  /** `n` timeouts of the clients' `processQueue` in a row. */
  function Rearms<T>(s: State<T>, n: nat): State<T>
    decreases n
  {
    if n == 0 then s else Rearm(Rearms(s, n - 1))
  }

  /**
   * `await call(priority, ...)`: the promise settles only in `processQueue`, once the
   * request has been sent. By then every entry ahead of it has gone out, in order, and
   * a timeout is pending; the entries behind it still wait. `AwaitIsRearms` shows that
   * this is what submitting and then letting the timeout fire `Waits` times leaves.
   */
  function Await<T>(s: State<T>, p: Priority, x: T): State<T> {
    State(Behind(s.queues, p), true, s.dispatched + Pending(s.queues)[..Ahead(s.queues, p)] + [x])
  }

  /** The buckets after `p`, as they were; those up to `p` are empty. */
  function Behind<T>(q: Queues<T>, p: Priority): Queues<T> {
    match p
    case High => q.(high := [])
    case Medium => Queues([], [], q.low)
    case Low => NoQueues()
  }

  /** What still waits behind `p` is the buckets after it. */
  lemma BehindBuckets<T>(q: Queues<T>, p: Priority)
    ensures forall p' :: Bucket(Behind(q, p), p') == if Rank(p') <= Rank(p) then [] else Bucket(q, p')
    ensures Pending(Behind(q, p)) == Pending(q)[Ahead(q, p)..]
  {
    PendingBehind(q, p);
  }

  lemma PendingBehind<T>(q: Queues<T>, p: Priority)
    ensures Pending(Behind(q, p)) == Pending(q)[Ahead(q, p)..]
  {
    match p
    case High =>
      assert Pending(q) == q.high + (q.medium + q.low);
    case Medium =>
      assert Pending(q) == (q.high + q.medium) + q.low;
    case Low =>
  }

  /** How many timeouts fire between submitting at `p` and the entry going out. */
  function Waits<T>(s: State<T>, p: Priority): nat {
    Ahead(s.queues, p) + (if s.armed then 1 else 0)
  }

  /**
   * Awaiting is submitting and then `Waits` timeouts: the entries ahead go out first,
   * then the awaited one, and the timeout is re-armed each time.
   */
  lemma AwaitIsRearms<T>(s: State<T>, p: Priority, x: T)
    ensures Rearms(Submit(s, p, x), Waits(s, p)) == Await(s, p, x)
  {
    var t := Submit(s, p, x);
    var n := Waits(s, p);
    var r := Rearms(t, n);
    SubmitRearmsAhead(s, p, x);
    assert r.dispatched == s.dispatched + Pending(s.queues)[..Ahead(s.queues, p)] + [x] by {
      var pushed := s.(queues := Push(s.queues, p, x));
      PushSplit(s.queues, p, x);
      assert r.dispatched == (s.dispatched + Pending(pushed.queues))[..|s.dispatched| + Ahead(s.queues, p) + 1];
    }
    assert r.queues == Behind(s.queues, p) by {
      AheadEmpty(r.queues, p);
      assert r.queues.high == Bucket(r.queues, High) && r.queues.medium == Bucket(r.queues, Medium) && r.queues.low == Bucket(r.queues, Low);
    }
  }

  /** After the submission and `Waits` timeouts, everything up to `p` has gone out, the later buckets are as they were, and the order is kept. */
  lemma SubmitRearmsAhead<T>(s: State<T>, p: Priority, x: T)
    ensures var pushed := Push(s.queues, p, x); var r := Rearms(Submit(s, p, x), Waits(s, p));
      && r.armed
      && Ahead(r.queues, p) == 0
      && (forall p' :: Rank(p') > Rank(p) ==> Bucket(r.queues, p') == Bucket(s.queues, p'))
      && r.dispatched + Pending(r.queues) == s.dispatched + Pending(pushed)
      && |r.dispatched| == |s.dispatched| + Ahead(s.queues, p) + 1
  {
    var t := Submit(s, p, x);
    var pushed := s.(queues := Push(s.queues, p, x));
    PushOthers(s.queues, p, x);
    PushSplit(s.queues, p, x);
    if !s.armed {
      TickAhead(pushed, p);
    }
    RearmsAhead(t, p, Waits(s, p));
  }

  /** An awaited call is sent at `SendIndex`, as the last entry sent before it returns. */
  lemma AwaitSent<T>(s: State<T>, p: Priority, x: T)
    ensures |Await(s, p, x).dispatched| == SendIndex(s, p) + 1
    ensures Await(s, p, x).dispatched[SendIndex(s, p)] == x
  {
  }

  /**
   * Awaiting a call loses nothing and sends in priority order: the log followed by what
   * still waits is what submitting alone would have made it.
   */
  lemma AwaitKeepsOrder<T>(s: State<T>, p: Priority, x: T)
    ensures Await(s, p, x).dispatched + Pending(Await(s, p, x).queues) == s.dispatched + Pending(Push(s.queues, p, x))
    ensures Submitted(Await(s, p, x)) == Submitted(s) + 1
  {
    var r := Await(s, p, x);
    var P := Pending(s.queues);
    var A := Ahead(s.queues, p);
    PushSplit(s.queues, p, x);
    assert r.dispatched + Pending(r.queues) == s.dispatched + Pending(Push(s.queues, p, x)) by {
      PendingBehind(s.queues, p);
      Regroup(s.dispatched, P[..A] + [x], P[A..]);
    }
    assert |Pending(Push(s.queues, p, x))| == |P| + 1;
  }

  lemma Regroup<T>(a: seq<T>, b: seq<T>, c: seq<T>)
    ensures (a + b) + c == a + (b + c)
  {
  }

  /** From a dispatcher with nothing waiting, an awaited call is sent at once and nothing is left waiting. */
  lemma AwaitSettled<T>(s: State<T>, p: Priority, x: T)
    requires Empty(s.queues)
    ensures Await(s, p, x) == State(NoQueues(), true, s.dispatched + [x])
  {
  }

  /** The entries ahead of a pushed one, the entry, and those behind it are everything then waiting. */
  lemma PushSplit<T>(q: Queues<T>, p: Priority, x: T)
    ensures Pending(Push(q, p, x)) == Pending(q)[..Ahead(q, p)] + [x] + Pending(q)[Ahead(q, p)..]
    ensures Ahead(Push(q, p, x), p) == Ahead(q, p) + 1
  {
    var h, m, l := q.high, q.medium, q.low;
    assert Pending(q) == h + m + l;
    match p
    case High =>
      assert Pending(q)[..|h|] == h && Pending(q)[|h|..] == m + l;
    case Medium =>
      assert Pending(q)[..|h| + |m|] == h + m && Pending(q)[|h| + |m|..] == l;
    case Low =>
      assert Pending(q)[..|h| + |m| + |l|] == h + m + l;
  }

  /** With nothing waiting at `p` or before it, the buckets up to `p` are empty. */
  lemma AheadEmpty<T>(q: Queues<T>, p: Priority)
    requires Ahead(q, p) == 0
    ensures forall p' :: Rank(p') <= Rank(p) ==> Bucket(q, p') == []
  {
  }

  /** A tick with something waiting at `p` or before it sends one of those entries and leaves the later buckets alone. */
  lemma TickAhead<T>(s: State<T>, p: Priority)
    requires Ahead(s.queues, p) > 0
    ensures Ahead(Tick(s).queues, p) == Ahead(s.queues, p) - 1
    ensures forall p' :: Rank(p') > Rank(p) ==> Bucket(Tick(s).queues, p') == Bucket(s.queues, p')
    ensures Tick(s).dispatched + Pending(Tick(s).queues) == s.dispatched + Pending(s.queues)
    ensures |Tick(s).dispatched| == |s.dispatched| + 1 && Tick(s).armed == s.armed
  {
    TickKeepsOrder(s);
  }

  /** While a timeout is pending, `n` timeouts send the first `n` entries at `p` or before it. */
  lemma {:induction false} RearmsAhead<T>(t: State<T>, p: Priority, n: nat)
    requires t.armed && n <= Ahead(t.queues, p)
    ensures var u := Rearms(t, n);
      && u.armed
      && Ahead(u.queues, p) == Ahead(t.queues, p) - n
      && (forall p' :: Rank(p') > Rank(p) ==> Bucket(u.queues, p') == Bucket(t.queues, p'))
      && u.dispatched + Pending(u.queues) == t.dispatched + Pending(t.queues)
      && |u.dispatched| == |t.dispatched| + n
    decreases n
  {
    if n > 0 {
      RearmsAhead(t, p, n - 1);
      var u := Rearms(t, n - 1);
      TickAhead(u, p);
      RearmIsTick(u);
    }
  }

  /** `n` timer ticks in a row. */
  function Run<T>(s: State<T>, n: nat): State<T>
    decreases n
  {
    if n == 0 then s else Run(Tick(s), n - 1)
  }

  // ---------------------------------------------------------------- properties

  /** One tick dispatches at most one entry, and only the head of the first non-empty bucket. */
  lemma TickDispatchesHead<T>(s: State<T>)
    ensures Empty(s.queues) ==> Tick(s) == s.(armed := false)
    ensures !Empty(s.queues) ==>
      var p := FirstNonEmpty(s.queues).value;
      && Tick(s).dispatched == s.dispatched + [Bucket(s.queues, p)[0]]
      && Tick(s).armed == s.armed
      && Bucket(Tick(s).queues, p) == Bucket(s.queues, p)[1..]
      && (forall p' :: p' != p ==> Bucket(Tick(s).queues, p') == Bucket(s.queues, p'))
  {
  }

  /** The log followed by what is still waiting never changes under a tick: dispatch follows priority order, FIFO within a bucket. */
  lemma TickKeepsOrder<T>(s: State<T>)
    ensures Tick(s).dispatched + Pending(Tick(s).queues) == s.dispatched + Pending(s.queues)
    ensures Size(Tick(s).queues) == if Empty(s.queues) then 0 else Size(s.queues) - 1
  {
    var q := s.queues;
    if !Empty(q) {
      var p := FirstNonEmpty(q).value;
      var t := Tick(s);
      ShiftPending(q);
      assert t.dispatched + Pending(t.queues) == s.dispatched + ([Bucket(q, p)[0]] + Pending(Shift(q, p)));
    }
  }

  /** The head of the first non-empty bucket, followed by what is left, is everything that was waiting. */
  lemma ShiftPending<T>(q: Queues<T>)
    requires !Empty(q)
    ensures var p := FirstNonEmpty(q).value;
      [Bucket(q, p)[0]] + Pending(Shift(q, p)) == Pending(q)
  {
    if q.high != [] {
      assert [q.high[0]] + q.high[1..] == q.high;
    } else if q.medium != [] {
      assert [q.medium[0]] + q.medium[1..] == q.medium;
    } else {
      assert [q.low[0]] + q.low[1..] == q.low;
    }
  }

  /** A tick keeps the invariant. */
  lemma TickValid<T>(s: State<T>)
    requires Valid(s)
    ensures Valid(Tick(s))
  {
    var q := s.queues;
    if q.high == [] && q.medium == [] && q.low != [] {
      assert Tick(s).queues == q.(low := q.low[1..]);
    }
  }

  /** Submitting keeps the invariant and leaves a timer pending. */
  lemma SubmitValid<T>(s: State<T>, p: Priority, x: T)
    requires Valid(s)
    ensures Valid(Submit(s, p, x)) && Submit(s, p, x).armed
  {
  }

  /** On an idle dispatcher a submitted entry is dispatched at once, and the timer is set. */
  lemma SubmitIdle<T>(s: State<T>, p: Priority, x: T)
    requires Valid(s) && !s.armed
    ensures Submit(s, p, x) == State(s.queues, true, s.dispatched + [x])
  {
    var pushed := Push(s.queues, p, x);
    assert FirstNonEmpty(pushed) == Some(p);
    assert Shift(pushed, p) == s.queues;
  }

  /** While a timer is pending, submitting only queues the entry at the tail of its bucket. */
  lemma SubmitBusy<T>(s: State<T>, p: Priority, x: T)
    requires s.armed
    ensures Submit(s, p, x) == s.(queues := Push(s.queues, p, x))
  {
  }

  /** Nothing is lost or duplicated: every submission is dispatched or waiting, exactly once. */
  lemma Conservation<T>(s: State<T>, p: Priority, x: T)
    ensures multiset(Submit(s, p, x).dispatched) + multiset(Pending(Submit(s, p, x).queues))
      == multiset(s.dispatched) + multiset(Pending(s.queues)) + multiset{x}
  {
    var pushed := s.(queues := Push(s.queues, p, x));
    PushPending(s.queues, p, x);
    if !s.armed {
      TickMultiset(pushed);
    }
  }

  /** Each submission counts once. */
  lemma SubmitCount<T>(s: State<T>, p: Priority, x: T)
    ensures Submitted(Submit(s, p, x)) == Submitted(s) + 1
  {
    var pushed := s.(queues := Push(s.queues, p, x));
    PushPending(s.queues, p, x);
    if !s.armed {
      TickKeepsOrder(pushed);
      assert |Tick(pushed).dispatched + Pending(Tick(pushed).queues)| == |pushed.dispatched + Pending(pushed.queues)|;
    }
  }

  lemma TickMultiset<T>(s: State<T>)
    ensures multiset(Tick(s).dispatched) + multiset(Pending(Tick(s).queues)) == multiset(s.dispatched) + multiset(Pending(s.queues))
  {
    TickKeepsOrder(s);
    assert multiset(Tick(s).dispatched + Pending(Tick(s).queues)) == multiset(s.dispatched + Pending(s.queues));
  }

  /** After a push, what is waiting holds one more copy of the entry. */
  lemma PushPending<T>(q: Queues<T>, p: Priority, x: T)
    ensures multiset(Pending(Push(q, p, x))) == multiset(Pending(q)) + multiset{x}
    ensures Size(Push(q, p, x)) == Size(q) + 1
  {
    var r := Push(q, p, x);
    var h, m, l := multiset(q.high), multiset(q.medium), multiset(q.low);
    assert multiset(Pending(q)) == h + m + l;
    assert multiset(Pending(r)) == multiset(r.high) + multiset(r.medium) + multiset(r.low);
    if p == High {
      assert multiset(r.high) == h + multiset{x} && r.medium == q.medium && r.low == q.low;
    } else if p == Medium {
      assert multiset(r.medium) == m + multiset{x} && r.high == q.high && r.low == q.low;
    } else {
      assert multiset(r.low) == l + multiset{x} && r.high == q.high && r.medium == q.medium;
    }
  }

  /** While a timer is pending, the clients' one-shot re-arm and the limiter's interval behave alike. */
  lemma RearmIsTick<T>(s: State<T>)
    requires s.armed
    ensures Rearm(s) == Tick(s)
  {
  }

  /**
   * Draining: a pending timer that keeps ticking dispatches everything waiting, high
   * bucket first, then medium, then low, each in arrival order; the tick after that
   * clears the timer.
   */
  lemma {:induction false} Drain<T>(s: State<T>)
    requires Valid(s) && s.armed
    ensures Run(s, Size(s.queues)) == State(NoQueues(), true, s.dispatched + Pending(s.queues))
    ensures !Run(s, Size(s.queues) + 1).armed
    decreases Size(s.queues)
  {
    if Empty(s.queues) {
      assert s.dispatched + Pending(s.queues) == s.dispatched;
    } else {
      TickKeepsOrder(s);
      TickValid(s);
      Drain(Tick(s));
      RunSplit(s, Size(s.queues));
      RunSplit(s, Size(s.queues) + 1);
      assert Tick(s).dispatched + Pending(Tick(s).queues) == s.dispatched + Pending(s.queues);
    }
  }

  lemma RunSplit<T>(s: State<T>, n: nat)
    requires n > 0
    ensures Run(s, n) == Run(Tick(s), n - 1)
  {
  }

  /**
   * A low, a high and a medium entry submitted while a timer is pending come out as
   * high, medium, low.
   */
  lemma BusyScenario<T>(s: State<T>, a: T, b: T, c: T)
    requires s.armed && Empty(s.queues)
    ensures var t := Submit(Submit(Submit(s, Low, a), High, b), Medium, c);
      Run(t, 3).dispatched == s.dispatched + [b, c, a] && Empty(Run(t, 3).queues)
  {
    var t := Submit(Submit(Submit(s, Low, a), High, b), Medium, c);
    assert t.queues == Queues([b], [c], [a]) && t.armed;
    Drain(t);
  }

  /**
   * The same three entries submitted to an idle dispatcher: the first is dispatched at
   * once, the other two wait and come out high before medium.
   */
  lemma IdleScenario<T>(a: T, b: T, c: T)
    ensures var t := Submit(Submit(Submit(Initial(), Low, a), High, b), Medium, c);
      t.dispatched == [a] && Run(t, 2).dispatched == [a, b, c]
  {
    var s1 := Submit(Initial(), Low, a);
    SubmitIdle(Initial(), Low, a);
    var t := Submit(Submit(s1, High, b), Medium, c);
    assert t.queues == Queues([b], [c], []) && t.armed;
    Drain(t);
  }
}
