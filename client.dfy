/**
 * `src/Client.ts`: the wiki client with a cached CSRF token.
 *
 * Requests go through the client's own three-bucket dispatcher (`call` /
 * `processQueue`, one request per timeout of 60000/39 ms). Writes (`uploadFile`,
 * `updatePage`, `updateOrCreatePage`) run the same loop of at most `MAX_ATTEMPTS`
 * passes: fetch a CSRF token if none is cached, append it to the form, post the form
 * at medium priority, and stop at the first reply that is not a `badtoken` error. The
 * cached token is never cleared, so a second pass reuses it and the form then carries
 * it twice.
 */
module MwClient {
  import opened Wrappers
  import opened Bytes
  import opened Dispatch
  import opened Wiki

  const MAX_ATTEMPTS: nat := 2

  /** The write loop with `left` passes to go. */
  function WriteLoop(sess: Session, form: Form, left: nat, server: Server): Write
    requires left >= 1
    decreases left
  {
    var a := TryPost(sess, form, server);
    if a.outcome.Err? then Write(a.outcome, a.session, a.form, a.calls, [])
    else if !IsBadToken(a.outcome.value) || left == 1 then Write(a.outcome, a.session, a.form, a.calls, [a.outcome.value])
    else
      var w := WriteLoop(a.session, a.form, left - 1, server);
      w.(calls := a.calls + w.calls, replies := [a.outcome.value] + w.replies)
  }

  /** A whole write: `MAX_ATTEMPTS` passes from the current session. */
  function WriteSpec(sess: Session, form: Form, server: Server): Write {
    WriteLoop(sess, form, MAX_ATTEMPTS, server)
  }

  // ---------------------------------------------------------------- properties of a write

  /** One pass of the loop: stop with this attempt's outcome, or go on from its session and form. */
  lemma WriteLoopStep(sess: Session, form: Form, left: nat, server: Server)
    requires left >= 1
    ensures var a := TryPost(sess, form, server);
      var w := WriteLoop(sess, form, left, server);
      if a.outcome.Err? || !IsBadToken(a.outcome.value) || left == 1 then w.result == a.outcome && w.session == a.session
      else var rest := WriteLoop(a.session, a.form, left - 1, server); w.result == rest.result && w.session == rest.session
  {
  }


  /**
   * At most `left` posts; every post but the last drew `badtoken`; a loop that stopped
   * early stopped on a reply that is not `badtoken`; the result is the last reply, or
   * the reply that made the token fetch throw.
   */
  lemma {:induction false} WriteRetries(sess: Session, form: Form, left: nat, server: Server)
    requires left >= 1
    ensures var w := WriteLoop(sess, form, left, server);
      && |w.replies| <= left
      && (forall i :: 0 <= i < |w.replies| - 1 ==> IsBadToken(w.replies[i]))
      && (w.result.Ok? ==> |w.replies| >= 1 && w.result.value == w.replies[|w.replies| - 1])
      && (w.result.Ok? && |w.replies| < left ==> !IsBadToken(w.result.value))
      && (w.result.Err? ==> !w.result.error.TokenReply?)
    decreases left
  {
    var a := TryPost(sess, form, server);
    if a.outcome.Ok? && IsBadToken(a.outcome.value) && left > 1 {
      WriteRetries(a.session, a.form, left - 1, server);
    }
  }

  /** The dispatcher after a write is the one before it, with the write's calls awaited one after the other. */
  lemma {:induction false} WriteQueue(sess: Session, form: Form, left: nat, server: Server)
    requires left >= 1
    ensures var w := WriteLoop(sess, form, left, server);
      && w.session.queue == AwaitCalls(sess.queue, w.calls)
      && Submitted(w.session.queue) == Submitted(sess.queue) + |w.calls|
    decreases left
  {
    TryPostExchange(sess, form, server);
    var a := TryPost(sess, form, server);
    var w := WriteLoop(sess, form, left, server);
    if a.outcome.Ok? && IsBadToken(a.outcome.value) && left > 1 {
      var rest := WriteLoop(a.session, a.form, left - 1, server);
      WriteQueue(a.session, a.form, left - 1, server);
      AwaitCallsAppend(sess.queue, a.calls, rest.calls);
    }
    AwaitCallsCount(sess.queue, w.calls);
  }

  /** From a client with nothing waiting, a write has sent every one of its calls, in order, and leaves nothing waiting. */
  lemma WriteSends(sess: Session, form: Form, left: nat, server: Server)
    requires left >= 1 && Empty(sess.queue.queues)
    ensures var w := WriteLoop(sess, form, left, server);
      && w.session.queue.queues == NoQueues()
      && w.session.queue.dispatched == sess.queue.dispatched + Requests(w.calls)
  {
    WriteQueue(sess, form, left, server);
    AwaitCallsSettled(sess.queue, WriteLoop(sess, form, left, server).calls);
  }

  /** Posts go at medium priority and token queries at high. */
  lemma {:induction false} WriteCalls(sess: Session, form: Form, left: nat, server: Server)
    requires left >= 1
    ensures forall c :: c in WriteLoop(sess, form, left, server).calls ==> WriteCall(c)
    decreases left
  {
    var a := TryPost(sess, form, server);
    assert forall c :: c in a.calls ==> WriteCall(c);
    if a.outcome.Ok? && IsBadToken(a.outcome.value) && left > 1 {
      WriteCalls(a.session, a.form, left - 1, server);
    }
  }

  /** There is one post per reply. */
  lemma {:induction false} WritePosts(sess: Session, form: Form, left: nat, server: Server)
    requires left >= 1
    ensures var w := WriteLoop(sess, form, left, server); |Posts(w.calls)| == |w.replies|
    decreases left
  {
    var a := TryPost(sess, form, server);
    AttemptPosts(sess, form, server);
    if a.outcome.Ok? && IsBadToken(a.outcome.value) && left > 1 {
      WritePosts(a.session, a.form, left - 1, server);
      WritePostsAgain(sess, form, left, server);
    }
  }

  lemma WritePostsAgain(sess: Session, form: Form, left: nat, server: Server)
    requires left > 1
    requires var a := TryPost(sess, form, server); a.outcome.Ok? && IsBadToken(a.outcome.value)
    requires var a := TryPost(sess, form, server);
      var rest := WriteLoop(a.session, a.form, left - 1, server); |Posts(rest.calls)| == |rest.replies|
    ensures var w := WriteLoop(sess, form, left, server); |Posts(w.calls)| == |w.replies|
  {
    var a := TryPost(sess, form, server);
    var rest := WriteLoop(a.session, a.form, left - 1, server);
    AttemptPosts(sess, form, server);
    PostsAppendCount(a.calls, rest.calls);
  }


  /**
   * The token is fetched at most once per write, and only as its first call; with a
   * cached token it is not fetched at all and stays cached.
   */
  lemma {:induction false} WriteFetchesOnce(sess: Session, form: Form, left: nat, server: Server)
    requires left >= 1
    ensures var w := WriteLoop(sess, form, left, server);
      && (forall i :: 0 < i < |w.calls| ==> w.calls[i].request.Post?)
      && (sess.csrf.Some? ==> (forall c :: c in w.calls ==> c.request.Post?) && w.session.csrf == sess.csrf)
    decreases left
  {
    var a := TryPost(sess, form, server);
    var w := WriteLoop(sess, form, left, server);
    if a.outcome.Ok? && IsBadToken(a.outcome.value) && left > 1 {
      var rest := WriteLoop(a.session, a.form, left - 1, server);
      WriteFetchesOnce(a.session, a.form, left - 1, server);
      assert forall c :: c in rest.calls ==> c.request.Post?;
      forall i | 0 < i < |w.calls|
        ensures w.calls[i].request.Post?
      {
        if i >= |a.calls| {
          assert w.calls[i] in rest.calls;
        }
      }
    }
  }

  /** A successful write leaves a token cached, and its form carries that one token once per post. */
  lemma {:induction false} WriteFormTokens(sess: Session, form: Form, left: nat, server: Server)
    requires left >= 1
    ensures var w := WriteLoop(sess, form, left, server);
      w.result.Ok? ==> w.session.csrf.Some? && Tokens(w.form) == Tokens(form) + Repeat(w.session.csrf.value, |w.replies|)
    decreases left
  {
    var a := TryPost(sess, form, server);
    if a.outcome.Ok? {
      var t := a.session.csrf.value;
      TokensAppendOne(form, t);
      assert Repeat(t, 1) == [t];
      if IsBadToken(a.outcome.value) && left > 1 {
        var rest := WriteLoop(a.session, a.form, left - 1, server);
        WriteFormTokens(a.session, a.form, left - 1, server);
        WriteFetchesOnce(a.session, a.form, left - 1, server);
        if rest.result.Ok? {
          RepeatCons(t, |rest.replies|);
        }
      }
    }
  }

  /**
   * A write that meets `badtoken` on both posts returns the second reply, and the
   * retried post carries the cached token a second time.
   */
  lemma BadTokenTwice(sess: Session, form: Form, token: string, server: Server)
    requires sess.csrf == Some(token)
    requires IsBadToken(server(SendIndex(sess.queue, Medium), Post(form + [TokenField(token)])))
    requires IsBadToken(server(SendIndex(sess.queue, Medium) + 1, Post(form + [TokenField(token), TokenField(token)])))
    ensures var w := WriteSpec(sess, form, server);
      && w.result == Ok(server(SendIndex(sess.queue, Medium) + 1, Post(form + [TokenField(token), TokenField(token)])))
      && w.calls == [Call(Medium, Post(form + [TokenField(token)])), Call(Medium, Post(form + [TokenField(token), TokenField(token)]))]
      && w.session.csrf == Some(token)
  {
    TryPostExchange(sess, form, server);
    var a := TryPost(sess, form, server);
    assert a.form == form + [TokenField(token)];
    var b := TryPost(a.session, a.form, server);
    AwaitSent(sess.queue, Medium, Post(a.form));
    assert b.form == form + [TokenField(token), TokenField(token)];
  }

  /** The same write from a client with nothing waiting: both posts go out, one after the other, and nothing else does. */
  lemma BadTokenTwiceSends(sess: Session, form: Form, token: string, server: Server)
    requires Empty(sess.queue.queues) && sess.csrf == Some(token)
    requires IsBadToken(server(|sess.queue.dispatched|, Post(form + [TokenField(token)])))
    requires IsBadToken(server(|sess.queue.dispatched| + 1, Post(form + [TokenField(token), TokenField(token)])))
    ensures var w := WriteSpec(sess, form, server);
      && w.session.queue.queues == NoQueues()
      && w.session.queue.dispatched == sess.queue.dispatched + [Post(form + [TokenField(token)]), Post(form + [TokenField(token), TokenField(token)])]
  {
    BadTokenTwice(sess, form, token, server);
    WriteSends(sess, form, MAX_ATTEMPTS, server);
  }

  // ---------------------------------------------------------------- the client

  class Client {
    /** `root`, the API endpoint. */
    const root: string
    var high: seq<Request>
    var medium: seq<Request>
    var low: seq<Request>
    /** `id != null`: a timeout is pending. */
    var timerSet: bool
    var dispatched: seq<Request>
    /** `CSRF`, the cached token. */
    var csrf: Option<string>

    function Queue(): State<Request>
      reads this
    {
      State(Queues(high, medium, low), timerSet, dispatched)
    }

    function Current(): Session
      reads this
    {
      Session(Queue(), csrf)
    }

    constructor(path: string)
      ensures root == path && Current() == Session(Initial(), None)
    {
      root := path;
      high, medium, low := [], [], [];
      timerSet := false;
      dispatched := [];
      csrf := None;
    }

    method ShiftBucket(p: Priority) returns (entry: Option<Request>)
      modifies this
      ensures Bucket(old(Queue()).queues, p) == [] ==> entry.None? && Queue() == old(Queue())
      ensures Bucket(old(Queue()).queues, p) != [] ==>
        entry == Some(Bucket(old(Queue()).queues, p)[0]) &&
        Queue() == old(Queue()).(queues := Shift(old(Queue()).queues, p))
      ensures csrf == old(csrf)
    {
      entry := None;
      match p
      case High =>
        if high != [] {
          entry := Some(high[0]);
          high := high[1..];
        }
      case Medium =>
        if medium != [] {
          entry := Some(medium[0]);
          medium := medium[1..];
        }
      case Low =>
        if low != [] {
          entry := Some(low[0]);
          low := low[1..];
        }
    }

    /**
     * `processQueue()`: send the head of the first non-empty bucket and set the next
     * timeout; with every bucket empty, clear the handle.
     */
    method ProcessQueue()
      modifies this
      ensures Queue() == Rearm(old(Queue()))
      ensures csrf == old(csrf)
    {
      ghost var s := Queue();
      for k := 0 to |Order|
        invariant Queue() == s && csrf == old(csrf)
        invariant forall j :: 0 <= j < k ==> Bucket(s.queues, Order[j]) == []
      {
        var entry := ShiftBucket(Order[k]);
        if entry.Some? {
          FirstNonEmptyAt(s.queues, k);
          dispatched := dispatched + [entry.value];
          timerSet := true;
          return;
        }
      }
      assert Empty(s.queues) by {
        assert Bucket(s.queues, Order[0]) == [] && Bucket(s.queues, Order[1]) == [] && Bucket(s.queues, Order[2]) == [];
      }
      timerSet := false;
    }

    /**
     * `await call(priority, input, init)`: queue the request and, with no timeout
     * pending, send at once. The promise settles only when `processQueue` sends the
     * request, so the timeouts that fire until then are part of the call.
     */
    method Call(p: Priority, req: Request, server: Server) returns (reply: Reply)
      modifies this
      ensures (reply, Queue()) == Exchange(old(Queue()), p, req, server)
      ensures csrf == old(csrf)
    {
      ghost var s := Queue();
      var at := |dispatched| + Ahead(Queues(high, medium, low), p);
      var waits := Ahead(Queues(high, medium, low), p) + (if timerSet then 1 else 0);
      match p {
        case High => high := high + [req];
        case Medium => medium := medium + [req];
        case Low => low := low + [req];
      }
      assert Queue() == s.(queues := Push(s.queues, p, req));
      assert Bucket(Queue().queues, p) != [];
      if !timerSet {
        ProcessQueue();
      }
      for k := 0 to waits
        invariant Queue() == Rearms(Submit(s, p, req), k) && csrf == old(csrf)
      {
        ProcessQueue();
      }
      AwaitIsRearms(s, p, req);
      assert Queue() == Await(s, p, req) && at == SendIndex(s, p);
      reply := server(at, req);
    }

    /** `getCSRFToken()`. */
    method GetCSRFToken(server: Server) returns (r: Result<string, Reply>)
      modifies this
      ensures (r, Queue()) == FetchToken(old(Queue()), server)
      ensures csrf == old(csrf)
    {
      var reply := Call(High, CsrfTokenQuery, server);
      if reply.TokenReply? {
        r := Ok(reply.token);
      } else {
        r := Err(reply);
      }
    }

    /**
     * `logIn(user, password)`: a high-priority login-token query, then the login form
     * posted at high priority. A reply without a login token makes it throw.
     */
    method LogIn(user: string, password: string, server: Server) returns (r: Result<Reply, Reply>)
      modifies this
      ensures var (t, q) := Exchange(old(Queue()), High, LoginTokenQuery, server);
        if t.TokenReply? then r.Ok? && (r.value, Queue()) == Exchange(q, High, Post(LoginForm(user, password, t.token)), server)
        else r == Err(t) && Queue() == q
      ensures csrf == old(csrf)
    {
      var t := Call(High, LoginTokenQuery, server);
      if !t.TokenReply? {
        return Err(t);
      }
      var reply := Call(High, Post(LoginForm(user, password, t.token)), server);
      r := Ok(reply);
    }

    /** `getImageInfo(titles)`: one medium-priority query. */
    method GetImageInfo(titles: seq<string>, server: Server) returns (reply: Reply)
      modifies this
      ensures (reply, Queue()) == Exchange(old(Queue()), Medium, ImageInfoQuery(titles), server)
      ensures csrf == old(csrf)
    {
      reply := Call(Medium, ImageInfoQuery(titles), server);
    }

    /** One pass of the write loop: a token if none is cached, then the post. */
    method Attempt(form: Form, server: Server) returns (outcome: Result<Reply, Reply>, sent: Form)
      modifies this
      ensures var a := TryPost(old(Current()), form, server);
        outcome == a.outcome && sent == a.form && Current() == a.session
    {
      ghost var a := TryPost(Current(), form, server);
      sent := form;
      if csrf == None {
        var t := GetCSRFToken(server);
        if t.Err? {
          return Err(t.error), sent;
        }
        csrf := Some(t.value);
      }
      sent := form + [TokenField(csrf.value)];
      var reply := Call(Medium, Post(sent), server);
      outcome := Ok(reply);
    }

    /** The loop `uploadFile`, `updatePage` and `updateOrCreatePage` share. */
    method PostWithToken(form: Form, server: Server) returns (r: Result<Reply, Reply>)
      modifies this
      ensures var w := WriteSpec(old(Current()), form, server); r == w.result && Current() == w.session
    {
      ghost var w0 := WriteSpec(Current(), form, server);
      var f := form;
      var data := ErrorReply("", "");
      var attempt := 0;
      while attempt < MAX_ATTEMPTS
        invariant 0 <= attempt <= MAX_ATTEMPTS
        invariant attempt < MAX_ATTEMPTS ==>
          var w := WriteLoop(Current(), f, MAX_ATTEMPTS - attempt, server); (w.result, w.session) == (w0.result, w0.session)
        invariant attempt == MAX_ATTEMPTS ==> Ok(data) == w0.result && Current() == w0.session
      {
        WriteLoopStep(Current(), f, MAX_ATTEMPTS - attempt, server);
        var outcome;
        outcome, f := Attempt(f, server);
        if outcome.Err? {
          return outcome;
        }
        if !IsBadToken(outcome.value) {
          return outcome;
        }
        data := outcome.value;
        attempt := attempt + 1;
      }
      return Ok(data);
    }

    /** `uploadFile(file, name, content, forced)`. */
    method UploadFile(file: seq<byte>, name: string, content: Option<string>, forced: bool, server: Server)
      returns (r: Result<Reply, Reply>)
      modifies this
      ensures var w := WriteSpec(old(Current()), UploadForm(name, file, content, forced), server);
        r == w.result && Current() == w.session
    {
      r := PostWithToken(UploadForm(name, file, content, forced), server);
    }

    /** `updatePage(title, content)`: an edit that may not create the page. */
    method UpdatePage(title: string, content: string, server: Server) returns (r: Result<Reply, Reply>)
      modifies this
      ensures var w := WriteSpec(old(Current()), EditForm(title, content, true), server);
        r == w.result && Current() == w.session
    {
      r := PostWithToken(EditForm(title, content, true), server);
    }

    /** `updateOrCreatePage(title, content)`. */
    method UpdateOrCreatePage(title: string, content: string, server: Server) returns (r: Result<Reply, Reply>)
      modifies this
      ensures var w := WriteSpec(old(Current()), EditForm(title, content, false), server);
        r == w.result && Current() == w.session
    {
      r := PostWithToken(EditForm(title, content, false), server);
    }
  }
}
