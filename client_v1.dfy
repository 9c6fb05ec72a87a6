/**
 * `src/client/v1.js`: the earlier wiki client. Its dispatcher, `logIn`,
 * `getCSRFToken` and `getImageInfo` are those of `src/Client.ts`; its writes differ.
 * A write is a `do ... while (attempt-- > 0)` loop with `MAX_ATTEMPTS` = 1, so at most
 * two passes, and a `badtoken` reply clears the cached token, so the next pass fetches
 * a fresh one, which is appended after the stale one.
 */
module MwClientV1 {
  import opened Wrappers
  import opened Bytes
  import opened Dispatch
  import opened Wiki

  /** The retries after the first pass. */
  const MAX_ATTEMPTS: nat := 1

  /** The write loop with `attempt` retries still allowed. */
  function WriteLoop(sess: Session, form: Form, attempt: nat, server: Server): Write
    decreases attempt
  {
    var a := TryPost(sess, form, server);
    if a.outcome.Err? then Write(a.outcome, a.session, a.form, a.calls, [])
    else if !IsBadToken(a.outcome.value) then Write(a.outcome, a.session, a.form, a.calls, [a.outcome.value])
    else
      var reset := a.session.(csrf := None);
      if attempt == 0 then Write(a.outcome, reset, a.form, a.calls, [a.outcome.value])
      else
        var w := WriteLoop(reset, a.form, attempt - 1, server);
        w.(calls := a.calls + w.calls, replies := [a.outcome.value] + w.replies)
  }

  /** A whole write. */
  function WriteSpec(sess: Session, form: Form, server: Server): Write {
    WriteLoop(sess, form, MAX_ATTEMPTS, server)
  }

  // ---------------------------------------------------------------- properties of a write

  /** One pass of the loop: stop with this attempt's outcome, or clear the token and go on. */
  lemma WriteLoopStep(sess: Session, form: Form, attempt: nat, server: Server)
    ensures var a := TryPost(sess, form, server);
      var w := WriteLoop(sess, form, attempt, server);
      if a.outcome.Err? || !IsBadToken(a.outcome.value) then w.result == a.outcome && w.session == a.session
      else if attempt == 0 then w.result == a.outcome && w.session == a.session.(csrf := None)
      else var rest := WriteLoop(a.session.(csrf := None), a.form, attempt - 1, server);
        w.result == rest.result && w.session == rest.session
  {
  }

  /** A retried pass: the write is the rest of the loop, after this attempt's calls and reply. */
  lemma WriteLoopAgain(sess: Session, form: Form, attempt: nat, server: Server)
    requires attempt > 0
    requires var a := TryPost(sess, form, server); a.outcome.Ok? && IsBadToken(a.outcome.value)
    ensures var a := TryPost(sess, form, server);
      var rest := WriteLoop(a.session.(csrf := None), a.form, attempt - 1, server);
      WriteLoop(sess, form, attempt, server) == rest.(calls := a.calls + rest.calls, replies := [a.outcome.value] + rest.replies)
  {
  }

  /** A pass that ends the loop: the write is that pass, with the token cleared after `badtoken`. */
  lemma WriteLoopStop(sess: Session, form: Form, attempt: nat, server: Server)
    requires var a := TryPost(sess, form, server); !(a.outcome.Ok? && IsBadToken(a.outcome.value) && attempt > 0)
    ensures var a := TryPost(sess, form, server);
      var w := WriteLoop(sess, form, attempt, server);
      && w.result == a.outcome && w.form == a.form && w.calls == a.calls
      && w.replies == (if a.outcome.Ok? then [a.outcome.value] else [])
      && w.session == (if a.outcome.Ok? && IsBadToken(a.outcome.value) then a.session.(csrf := None) else a.session)
  {
  }

  /** At most `attempt + 1` posts; the result is the last reply, or the reply that made a token fetch throw. */
  lemma {:induction false} WriteRetries(sess: Session, form: Form, attempt: nat, server: Server)
    ensures var w := WriteLoop(sess, form, attempt, server);
      && |w.replies| <= attempt + 1
      && (w.result.Ok? ==> |w.replies| >= 1 && w.result.value == w.replies[|w.replies| - 1])
      && (w.result.Err? ==> !w.result.error.TokenReply?)
    decreases attempt
  {
    var a := TryPost(sess, form, server);
    if a.outcome.Ok? && IsBadToken(a.outcome.value) && attempt > 0 {
      WriteRetries(a.session.(csrf := None), a.form, attempt - 1, server);
    }
  }

  /** Every post but the last drew `badtoken`. */
  lemma {:induction false} WriteBadTokensFirst(sess: Session, form: Form, attempt: nat, server: Server)
    ensures var w := WriteLoop(sess, form, attempt, server);
      forall i :: 0 <= i < |w.replies| - 1 ==> IsBadToken(w.replies[i])
    decreases attempt
  {
    var a := TryPost(sess, form, server);
    if a.outcome.Ok? && IsBadToken(a.outcome.value) && attempt > 0 {
      var reset := a.session.(csrf := None);
      var rest := WriteLoop(reset, a.form, attempt - 1, server);
      WriteLoopAgain(sess, form, attempt, server);
      WriteBadTokensFirst(reset, a.form, attempt - 1, server);
      BadTokensCons(a.outcome.value, rest.replies);
    }
  }

  /** A loop that stopped before its last allowed pass stopped on a reply that is not `badtoken`. */
  lemma {:induction false} WriteStopsOnSuccess(sess: Session, form: Form, attempt: nat, server: Server)
    ensures var w := WriteLoop(sess, form, attempt, server);
      w.result.Ok? && |w.replies| <= attempt ==> !IsBadToken(w.result.value)
    decreases attempt
  {
    var a := TryPost(sess, form, server);
    if a.outcome.Ok? && IsBadToken(a.outcome.value) && attempt > 0 {
      var reset := a.session.(csrf := None);
      WriteLoopAgain(sess, form, attempt, server);
      WriteStopsOnSuccess(reset, a.form, attempt - 1, server);
    } else {
      WriteLoopStop(sess, form, attempt, server);
    }
  }

  lemma BadTokensCons(r: Reply, rest: seq<Reply>)
    requires IsBadToken(r) && forall i :: 0 <= i < |rest| - 1 ==> IsBadToken(rest[i])
    ensures forall i :: 0 <= i < |[r] + rest| - 1 ==> IsBadToken(([r] + rest)[i])
  {
    forall i | 0 <= i < |[r] + rest| - 1
      ensures IsBadToken(([r] + rest)[i])
    {
      if i > 0 {
        assert ([r] + rest)[i] == rest[i - 1];
      }
    }
  }

  /** The dispatcher after a write is the one before it, with the write's calls awaited one after the other. */
  lemma {:induction false} WriteQueue(sess: Session, form: Form, attempt: nat, server: Server)
    ensures var w := WriteLoop(sess, form, attempt, server);
      w.session.queue == AwaitCalls(sess.queue, w.calls)
    decreases attempt, 1
  {
    var a := TryPost(sess, form, server);
    if a.outcome.Ok? && IsBadToken(a.outcome.value) && attempt > 0 {
      WriteQueueRetry(sess, form, attempt, server);
    } else {
      TryPostQueue(sess, form, server);
      WriteLoopStop(sess, form, attempt, server);
    }
  }

  lemma {:induction false} WriteQueueRetry(sess: Session, form: Form, attempt: nat, server: Server)
    requires attempt > 0
    requires var a := TryPost(sess, form, server); a.outcome.Ok? && IsBadToken(a.outcome.value)
    ensures var w := WriteLoop(sess, form, attempt, server);
      w.session.queue == AwaitCalls(sess.queue, w.calls)
    decreases attempt, 0
  {
    TryPostQueue(sess, form, server);
    var a := TryPost(sess, form, server);
    var reset := a.session.(csrf := None);
    var rest := WriteLoop(reset, a.form, attempt - 1, server);
    WriteLoopAgain(sess, form, attempt, server);
    WriteQueue(reset, a.form, attempt - 1, server);
    assert reset.queue == AwaitCalls(sess.queue, a.calls);
    AwaitCallsAppend(sess.queue, a.calls, rest.calls);
  }

  /** From a client with nothing waiting, a write has sent every one of its calls, in order, and leaves nothing waiting. */
  lemma WriteSends(sess: Session, form: Form, attempt: nat, server: Server)
    requires Empty(sess.queue.queues)
    ensures var w := WriteLoop(sess, form, attempt, server);
      && w.session.queue.queues == NoQueues()
      && w.session.queue.dispatched == sess.queue.dispatched + Requests(w.calls)
  {
    WriteQueue(sess, form, attempt, server);
    AwaitCallsSettled(sess.queue, WriteLoop(sess, form, attempt, server).calls);
  }

  /** The dispatcher counts one more submission per call of a write. */
  lemma WriteSubmitted(sess: Session, form: Form, attempt: nat, server: Server)
    ensures var w := WriteLoop(sess, form, attempt, server);
      Submitted(w.session.queue) == Submitted(sess.queue) + |w.calls|
  {
    WriteQueue(sess, form, attempt, server);
    AwaitCallsCount(sess.queue, WriteLoop(sess, form, attempt, server).calls);
  }

  /** Posts go at medium priority and token queries at high. */
  lemma {:induction false} WriteCalls(sess: Session, form: Form, attempt: nat, server: Server)
    ensures var calls := WriteLoop(sess, form, attempt, server).calls;
      forall i :: 0 <= i < |calls| ==> WriteCall(calls[i])
    decreases attempt, 1
  {
    var a := TryPost(sess, form, server);
    if a.outcome.Ok? && IsBadToken(a.outcome.value) && attempt > 0 {
      WriteCallsRetry(sess, form, attempt, server);
    } else {
      AttemptWriteCalls(sess, form, server);
    }
  }

  lemma {:induction false} WriteCallsRetry(sess: Session, form: Form, attempt: nat, server: Server)
    requires attempt > 0
    requires var a := TryPost(sess, form, server); a.outcome.Ok? && IsBadToken(a.outcome.value)
    ensures var calls := WriteLoop(sess, form, attempt, server).calls;
      forall i :: 0 <= i < |calls| ==> WriteCall(calls[i])
    decreases attempt, 0
  {
    var a := TryPost(sess, form, server);
    var rest := WriteLoop(a.session.(csrf := None), a.form, attempt - 1, server);
    AttemptWriteCalls(sess, form, server);
    WriteLoopAgain(sess, form, attempt, server);
    WriteCalls(a.session.(csrf := None), a.form, attempt - 1, server);
    WriteCallsAppend(a.calls, rest.calls);
  }

  lemma AttemptWriteCalls(sess: Session, form: Form, server: Server)
    ensures var calls := TryPost(sess, form, server).calls;
      forall i :: 0 <= i < |calls| ==> WriteCall(calls[i])
  {
  }

  lemma WriteCallsAppend(x: seq<Call>, y: seq<Call>)
    requires (forall i :: 0 <= i < |x| ==> WriteCall(x[i])) && (forall i :: 0 <= i < |y| ==> WriteCall(y[i]))
    ensures forall i :: 0 <= i < |x + y| ==> WriteCall((x + y)[i])
  {
  }

  /** There is one post per reply. */
  lemma {:induction false} WritePosts(sess: Session, form: Form, attempt: nat, server: Server)
    ensures var w := WriteLoop(sess, form, attempt, server); |Posts(w.calls)| == |w.replies|
    decreases attempt, 1
  {
    var a := TryPost(sess, form, server);
    AttemptPosts(sess, form, server);
    if a.outcome.Ok? && IsBadToken(a.outcome.value) && attempt > 0 {
      WritePostsAgain(sess, form, attempt, server);
    }
  }

  lemma {:induction false} WritePostsAgain(sess: Session, form: Form, attempt: nat, server: Server)
    requires attempt > 0
    requires var a := TryPost(sess, form, server); a.outcome.Ok? && IsBadToken(a.outcome.value)
    ensures var w := WriteLoop(sess, form, attempt, server); |Posts(w.calls)| == |w.replies|
    decreases attempt, 0
  {
    var a := TryPost(sess, form, server);
    var rest := WriteLoop(a.session.(csrf := None), a.form, attempt - 1, server);
    WritePosts(a.session.(csrf := None), a.form, attempt - 1, server);
    AttemptPosts(sess, form, server);
    PostsAppendCount(a.calls, rest.calls);
    WriteLoopAgain(sess, form, attempt, server);
  }


  /** Every post that is not the last call is followed by a token query. */
  predicate RefetchesAfterPosts(calls: seq<Call>) {
    forall i {:trigger calls[i].request} :: 0 <= i < |calls| - 1 && calls[i].request.Post? ==> calls[i + 1] == Call(High, CsrfTokenQuery)
  }

  /** One attempt's calls, followed by calls that start with a token query, keep the pattern. */
  lemma RefetchesAppend(x: seq<Call>, y: seq<Call>)
    requires 0 < |x| <= 2 && (|x| == 2 ==> !x[0].request.Post?)
    requires |y| > 0 ==> y[0] == Call(High, CsrfTokenQuery)
    requires RefetchesAfterPosts(y)
    ensures RefetchesAfterPosts(x + y)
  {
    var c := x + y;
    forall i | 0 <= i < |c| - 1 && c[i].request.Post?
      ensures c[i + 1] == Call(High, CsrfTokenQuery)
    {
      if i >= |x| {
        assert c[i] == y[i - |x|] && c[i + 1] == y[i + 1 - |x|];
      } else {
        assert i == |x| - 1 && c[i + 1] == y[0];
      }
    }
  }

  /**
   * A `badtoken` reply clears the cached token: a post that drew one and was not the
   * write's last call is followed by a fresh high-priority token query.
   */
  lemma {:induction false} WriteRefetches(sess: Session, form: Form, attempt: nat, server: Server)
    ensures RefetchesAfterPosts(WriteLoop(sess, form, attempt, server).calls)
    decreases attempt, 1
  {
    var a := TryPost(sess, form, server);
    if a.outcome.Ok? && IsBadToken(a.outcome.value) && attempt > 0 {
      WriteRefetchesAgain(sess, form, attempt, server);
    } else {
      WriteLoopStop(sess, form, attempt, server);
      AttemptCallsShape(sess, form, server);
      RefetchesAppend(a.calls, []);
      assert a.calls + [] == a.calls;
    }
  }

  lemma {:induction false} WriteRefetchesAgain(sess: Session, form: Form, attempt: nat, server: Server)
    requires attempt > 0
    requires var a := TryPost(sess, form, server); a.outcome.Ok? && IsBadToken(a.outcome.value)
    ensures RefetchesAfterPosts(WriteLoop(sess, form, attempt, server).calls)
    decreases attempt, 0
  {
    var a := TryPost(sess, form, server);
    var reset := a.session.(csrf := None);
    WriteRefetches(reset, a.form, attempt - 1, server);
    AttemptCallsShape(sess, form, server);
    FirstCallFetches(reset, a.form, attempt - 1, server);
    RefetchesAppend(a.calls, WriteLoop(reset, a.form, attempt - 1, server).calls);
  }


  /** A write that ends on `badtoken`, or whose token fetch throws, leaves no token cached; one that ends on any other reply leaves one. */
  lemma {:induction false} WriteClearsToken(sess: Session, form: Form, attempt: nat, server: Server)
    ensures var w := WriteLoop(sess, form, attempt, server);
      && (w.result.Ok? ==> (w.session.csrf.None? <==> IsBadToken(w.result.value)))
      && (w.result.Err? ==> w.session.csrf.None?)
    decreases attempt
  {
    var a := TryPost(sess, form, server);
    if a.outcome.Ok? && IsBadToken(a.outcome.value) && attempt > 0 {
      WriteLoopAgain(sess, form, attempt, server);
      WriteClearsToken(a.session.(csrf := None), a.form, attempt - 1, server);
    } else {
      WriteLoopStop(sess, form, attempt, server);
    }
  }

  /** With no token cached, a write's first call is the token query. */
  lemma FirstCallFetches(sess: Session, form: Form, attempt: nat, server: Server)
    requires sess.csrf.None?
    ensures var w := WriteLoop(sess, form, attempt, server);
      |w.calls| > 0 && w.calls[0] == Call(High, CsrfTokenQuery)
  {
    var a := TryPost(sess, form, server);
    if a.outcome.Ok? && IsBadToken(a.outcome.value) && attempt > 0 {
      WriteLoopAgain(sess, form, attempt, server);
    } else {
      WriteLoopStop(sess, form, attempt, server);
    }
  }

  /** A successful write's form gained one token per post. */
  lemma {:induction false} WriteFormTokens(sess: Session, form: Form, attempt: nat, server: Server)
    ensures var w := WriteLoop(sess, form, attempt, server);
      w.result.Ok? ==>
        |Tokens(w.form)| == |Tokens(form)| + |w.replies| && Tokens(w.form)[..|Tokens(form)|] == Tokens(form)
    decreases attempt, 1
  {
    var a := TryPost(sess, form, server);
    if a.outcome.Ok? {
      if IsBadToken(a.outcome.value) && attempt > 0 {
        WriteFormTokensRetry(sess, form, attempt, server);
      } else {
        TokensAppendOne(form, a.session.csrf.value);
      }
    }
  }

  lemma {:induction false} WriteFormTokensRetry(sess: Session, form: Form, attempt: nat, server: Server)
    requires attempt > 0
    requires var a := TryPost(sess, form, server); a.outcome.Ok? && IsBadToken(a.outcome.value)
    ensures var w := WriteLoop(sess, form, attempt, server);
      w.result.Ok? ==>
        |Tokens(w.form)| == |Tokens(form)| + |w.replies| && Tokens(w.form)[..|Tokens(form)|] == Tokens(form)
    decreases attempt, 0
  {
    var a := TryPost(sess, form, server);
    TokensAppendOne(form, a.session.csrf.value);
    var rest := WriteLoop(a.session.(csrf := None), a.form, attempt - 1, server);
    WriteLoopAgain(sess, form, attempt, server);
    WriteFormTokens(a.session.(csrf := None), a.form, attempt - 1, server);
    if rest.result.Ok? {
      PrefixChain(Tokens(form), Tokens(a.form), Tokens(rest.form));
    }
  }

  lemma PrefixChain<T>(x: seq<T>, y: seq<T>, z: seq<T>)
    requires |x| <= |y| <= |z| && y[..|x|] == x && z[..|y|] == y
    ensures z[..|x|] == x
  {
    assert z[..|x|] == z[..|y|][..|x|];
  }

  /**
   * A write with a cached token that meets `badtoken` twice: post, fresh token query,
   * post again with both tokens; the second reply is returned and no token stays
   * cached.
   */
  lemma BadTokenTwice(sess: Session, form: Form, stale: string, server: Server)
    requires sess.csrf == Some(stale)
    requires IsBadToken(server(SendIndex(sess.queue, Medium), Post(form + [TokenField(stale)])))
    requires server(SendIndex(sess.queue, Medium) + 1, CsrfTokenQuery).TokenReply?
    requires var renewed := server(SendIndex(sess.queue, Medium) + 1, CsrfTokenQuery).token;
      IsBadToken(server(SendIndex(sess.queue, Medium) + 2, Post(form + [TokenField(stale), TokenField(renewed)])))
    ensures var renewed := server(SendIndex(sess.queue, Medium) + 1, CsrfTokenQuery).token;
      var second := form + [TokenField(stale), TokenField(renewed)];
      var w := WriteSpec(sess, form, server);
      && w.result == Ok(server(SendIndex(sess.queue, Medium) + 2, Post(second)))
      && w.calls == [Call(Medium, Post(form + [TokenField(stale)])), Call(High, CsrfTokenQuery), Call(Medium, Post(second))]
      && w.session.csrf.None?
  {
    var n := SendIndex(sess.queue, Medium);
    var a := TryPost(sess, form, server);
    assert a.form == form + [TokenField(stale)];
    AwaitSent(sess.queue, Medium, Post(a.form));
    var reset := a.session.(csrf := None);
    assert SendIndex(reset.queue, High) == n + 1;
    var b := TryPost(reset, a.form, server);
    assert FetchToken(reset.queue, server).0.Ok?;
    var q2 := Await(reset.queue, High, CsrfTokenQuery);
    AwaitSent(reset.queue, High, CsrfTokenQuery);
    assert SendIndex(q2, Medium) == n + 2;
    assert b.form == form + [TokenField(stale), TokenField(server(n + 1, CsrfTokenQuery).token)];
  }

  /**
   * The same write from a client with nothing waiting: the stale post, the token query
   * and the second post go out in that order, each before the call after it is made.
   */
  lemma BadTokenTwiceSends(sess: Session, form: Form, stale: string, server: Server)
    requires Empty(sess.queue.queues) && sess.csrf == Some(stale)
    requires IsBadToken(server(|sess.queue.dispatched|, Post(form + [TokenField(stale)])))
    requires server(|sess.queue.dispatched| + 1, CsrfTokenQuery).TokenReply?
    requires var renewed := server(|sess.queue.dispatched| + 1, CsrfTokenQuery).token;
      IsBadToken(server(|sess.queue.dispatched| + 2, Post(form + [TokenField(stale), TokenField(renewed)])))
    ensures var renewed := server(|sess.queue.dispatched| + 1, CsrfTokenQuery).token;
      var w := WriteSpec(sess, form, server);
      && w.session.queue.queues == NoQueues()
      && w.session.queue.dispatched == sess.queue.dispatched + [Post(form + [TokenField(stale)]), CsrfTokenQuery, Post(form + [TokenField(stale), TokenField(renewed)])]
  {
    BadTokenTwice(sess, form, stale, server);
    WriteSends(sess, form, MAX_ATTEMPTS, server);
  }

  // ---------------------------------------------------------------- the client

  class Client {
    /** `root`, the API endpoint. */
    const root: string
    var high: seq<Request>
    var medium: seq<Request>
    var low: seq<Request>
    /** `id != null`: a timeout is pending. */
    var timerSet: bool
    var dispatched: seq<Request>
    /** `CSRF`, the cached token. */
    var csrf: Option<string>

    function Queue(): State<Request>
      reads this
    {
      State(Queues(high, medium, low), timerSet, dispatched)
    }

    function Current(): Session
      reads this
    {
      Session(Queue(), csrf)
    }

    constructor(path: string)
      ensures root == path && Current() == Session(Initial(), None)
    {
      root := path;
      high, medium, low := [], [], [];
      timerSet := false;
      dispatched := [];
      csrf := None;
    }

    method ShiftBucket(p: Priority) returns (entry: Option<Request>)
      modifies this
      ensures Bucket(old(Queue()).queues, p) == [] ==> entry.None? && Queue() == old(Queue())
      ensures Bucket(old(Queue()).queues, p) != [] ==>
        entry == Some(Bucket(old(Queue()).queues, p)[0]) &&
        Queue() == old(Queue()).(queues := Shift(old(Queue()).queues, p))
      ensures csrf == old(csrf)
    {
      entry := None;
      match p
      case High =>
        if high != [] {
          entry := Some(high[0]);
          high := high[1..];
        }
      case Medium =>
        if medium != [] {
          entry := Some(medium[0]);
          medium := medium[1..];
        }
      case Low =>
        if low != [] {
          entry := Some(low[0]);
          low := low[1..];
        }
    }

    /**
     * `processQueue()`: send the head of the first non-empty bucket and set the next
     * timeout; with every bucket empty, clear the handle.
     */
    method ProcessQueue()
      modifies this
      ensures Queue() == Rearm(old(Queue()))
      ensures csrf == old(csrf)
    {
      ghost var s := Queue();
      for k := 0 to |Order|
        invariant Queue() == s && csrf == old(csrf)
        invariant forall j :: 0 <= j < k ==> Bucket(s.queues, Order[j]) == []
      {
        var entry := ShiftBucket(Order[k]);
        if entry.Some? {
          FirstNonEmptyAt(s.queues, k);
          dispatched := dispatched + [entry.value];
          timerSet := true;
          return;
        }
      }
      assert Empty(s.queues) by {
        assert Bucket(s.queues, Order[0]) == [] && Bucket(s.queues, Order[1]) == [] && Bucket(s.queues, Order[2]) == [];
      }
      timerSet := false;
    }

    /**
     * `await call(priority, input, init)`: queue the request and, with no timeout
     * pending, send at once. The promise settles only when `processQueue` sends the
     * request, so the timeouts that fire until then are part of the call.
     */
    method Call(p: Priority, req: Request, server: Server) returns (reply: Reply)
      modifies this
      ensures (reply, Queue()) == Exchange(old(Queue()), p, req, server)
      ensures csrf == old(csrf)
    {
      ghost var s := Queue();
      var at := |dispatched| + Ahead(Queues(high, medium, low), p);
      var waits := Ahead(Queues(high, medium, low), p) + (if timerSet then 1 else 0);
      match p {
        case High => high := high + [req];
        case Medium => medium := medium + [req];
        case Low => low := low + [req];
      }
      assert Queue() == s.(queues := Push(s.queues, p, req));
      assert Bucket(Queue().queues, p) != [];
      if !timerSet {
        ProcessQueue();
      }
      for k := 0 to waits
        invariant Queue() == Rearms(Submit(s, p, req), k) && csrf == old(csrf)
      {
        ProcessQueue();
      }
      AwaitIsRearms(s, p, req);
      assert Queue() == Await(s, p, req) && at == SendIndex(s, p);
      reply := server(at, req);
    }

    /** `getCSRFToken()`. */
    method GetCSRFToken(server: Server) returns (r: Result<string, Reply>)
      modifies this
      ensures (r, Queue()) == FetchToken(old(Queue()), server)
      ensures csrf == old(csrf)
    {
      var reply := Call(High, CsrfTokenQuery, server);
      if reply.TokenReply? {
        r := Ok(reply.token);
      } else {
        r := Err(reply);
      }
    }

    /**
     * `logIn(user, password)`: a high-priority login-token query, then the login form
     * posted at high priority. A reply without a login token makes it throw.
     */
    method LogIn(user: string, password: string, server: Server) returns (r: Result<Reply, Reply>)
      modifies this
      ensures var (t, q) := Exchange(old(Queue()), High, LoginTokenQuery, server);
        if t.TokenReply? then r.Ok? && (r.value, Queue()) == Exchange(q, High, Post(LoginForm(user, password, t.token)), server)
        else r == Err(t) && Queue() == q
      ensures csrf == old(csrf)
    {
      var t := Call(High, LoginTokenQuery, server);
      if !t.TokenReply? {
        return Err(t);
      }
      var reply := Call(High, Post(LoginForm(user, password, t.token)), server);
      r := Ok(reply);
    }

    /** `getImageInfo(titles)`: one medium-priority query. */
    method GetImageInfo(titles: seq<string>, server: Server) returns (reply: Reply)
      modifies this
      ensures (reply, Queue()) == Exchange(old(Queue()), Medium, ImageInfoQuery(titles), server)
      ensures csrf == old(csrf)
    {
      reply := Call(Medium, ImageInfoQuery(titles), server);
    }

    /** One pass of the write loop: a token if none is cached, then the post. */
    method Attempt(form: Form, server: Server) returns (outcome: Result<Reply, Reply>, sent: Form)
      modifies this
      ensures var a := TryPost(old(Current()), form, server);
        outcome == a.outcome && sent == a.form && Current() == a.session
    {
      ghost var a := TryPost(Current(), form, server);
      sent := form;
      if csrf == None {
        var t := GetCSRFToken(server);
        if t.Err? {
          return Err(t.error), sent;
        }
        csrf := Some(t.value);
      }
      sent := form + [TokenField(csrf.value)];
      var reply := Call(Medium, Post(sent), server);
      outcome := Ok(reply);
    }

    /** The loop `uploadFile`, `updatePage` and `updateOrCreatePage` share. */
    method PostWithToken(form: Form, server: Server) returns (r: Result<Reply, Reply>)
      modifies this
      ensures var w := WriteSpec(old(Current()), form, server); r == w.result && Current() == w.session
    {
      ghost var w0 := WriteSpec(Current(), form, server);
      var f := form;
      var attempt := MAX_ATTEMPTS;
      while true
        invariant var w := WriteLoop(Current(), f, attempt, server); (w.result, w.session) == (w0.result, w0.session)
        decreases attempt
      {
        WriteLoopStep(Current(), f, attempt, server);
        var outcome;
        outcome, f := Attempt(f, server);
        if outcome.Err? {
          return outcome;
        }
        if !IsBadToken(outcome.value) {
          return outcome;
        }
        csrf := None;
        if attempt == 0 {
          return outcome;
        }
        attempt := attempt - 1;
      }
    }

    /** `uploadFile(file, name, content, forced)`. */
    method UploadFile(file: seq<byte>, name: string, content: Option<string>, forced: bool, server: Server)
      returns (r: Result<Reply, Reply>)
      modifies this
      ensures var w := WriteSpec(old(Current()), UploadForm(name, file, content, forced), server);
        r == w.result && Current() == w.session
    {
      r := PostWithToken(UploadForm(name, file, content, forced), server);
    }

    /** `updatePage(title, content)`: an edit that may not create the page. */
    method UpdatePage(title: string, content: string, server: Server) returns (r: Result<Reply, Reply>)
      modifies this
      ensures var w := WriteSpec(old(Current()), EditForm(title, content, true), server);
        r == w.result && Current() == w.session
    {
      r := PostWithToken(EditForm(title, content, true), server);
    }

    /** `updateOrCreatePage(title, content)`. */
    method UpdateOrCreatePage(title: string, content: string, server: Server) returns (r: Result<Reply, Reply>)
      modifies this
      ensures var w := WriteSpec(old(Current()), EditForm(title, content, false), server);
        r == w.result && Current() == w.session
    {
      r := PostWithToken(EditForm(title, content, false), server);
    }
  }
}
