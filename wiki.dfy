/**
 * What the two wiki clients (`src/Client.ts`, `src/client/v1.js`) send and receive.
 *
 * A request is queued on the client's dispatcher, and `await call(...)` returns once
 * `processQueue` has sent it; the wiki's reply to it is a function of how many requests
 * the client has sent before it and of the request itself (`Server`), which stands for
 * `fetch`, the cookie agent and `body.json()`. Replies keep
 * only what the callers look at: the error code, the token, the page hashes, the
 * upload and edit results. Form fields keep their order, since `FormData.append` never
 * replaces a field.
 */
module Wiki {
  import opened Wrappers
  import opened Bytes
  import opened Dispatch

  datatype Value = Text(text: string) | Blob(bytes: seq<byte>)
  datatype Field = Field(name: string, value: Value)
  type Form = seq<Field>

  datatype Request =
    | LoginTokenQuery                 // action=query&meta=tokens&type=login
    | CsrfTokenQuery                  // action=query&meta=tokens
    | ImageInfoQuery(titles: seq<string>)
    | Post(form: Form)

  /** One page of an image-info reply; `sha1` is `None` for a missing page. */
  datatype Page = Page(title: string, sha1: Option<string>)

  datatype Reply =
    | ErrorReply(code: string, info: string)
    | TokenReply(token: string)
    | LoginReply(result: string, reason: string)
    | ImageInfoReply(pages: seq<Page>)
    | UploadReply(result: string, warnings: seq<string>)
    | EditReply(result: string, nochange: bool)

  predicate IsBadToken(r: Reply) {
    r.ErrorReply? && r.code == "badtoken"
  }

  predicate IsReadOnly(r: Reply) {
    r.ErrorReply? && r.code == "readonly"
  }

  /** The wiki's reply to the request sent after `n` others. */
  type Server = (nat, Request) -> Reply

  /**
   * `await call(p, ...)`: the dispatcher once the request has been sent, and the wiki's
   * reply to it. The request goes out at `SendIndex`, as the last one sent.
   */
  function Exchange(q: State<Request>, p: Priority, req: Request, server: Server): (r: (Reply, State<Request>))
    ensures r.1 == Await(q, p, req)
    ensures |r.1.dispatched| == SendIndex(q, p) + 1 && r.1.dispatched[SendIndex(q, p)] == req
    ensures r.0 == server(|r.1.dispatched| - 1, req)
  {
    AwaitSent(q, p, req);
    (server(SendIndex(q, p), req), Await(q, p, req))
  }

  /**
   * `getCSRFToken()`: a `"high"` token query. An error reply throws; so does a reply
   * without a token, where the source fails reading `query.tokens.csrftoken`.
   */
  function FetchToken(q: State<Request>, server: Server): (r: (Result<string, Reply>, State<Request>))
    ensures r.1 == Await(q, High, CsrfTokenQuery)
    ensures r.0.Ok? <==> server(SendIndex(q, High), CsrfTokenQuery).TokenReply?
    ensures r.0.Ok? ==> r.0.value == server(SendIndex(q, High), CsrfTokenQuery).token
  {
    var (reply, q') := Exchange(q, High, CsrfTokenQuery, server);
    if reply.TokenReply? then (Ok(reply.token), q') else (Err(reply), q')
  }

  function TokenField(token: string): Field {
    Field("token", Text(token))
  }

  /** `uploadFile`'s form, before any token is appended. `content` is only sent when it is a non-empty string. */
  function UploadForm(name: string, file: seq<byte>, content: Option<string>, forced: bool): Form {
    [Field("action", Text("upload")), Field("filename", Text(name)), Field("comment", Text("automatic upload"))]
    + (if content.Some? && content.value != "" then [Field("text", Text(content.value))] else [])
    + (if forced then [Field("ignorewarnings", Text("1"))] else [])
    + [Field("format", Text("json")), Field("formatversion", Text("2")), Field("file", Blob(file))]
  }

  /** The upload form names the file and carries it. */
  lemma UploadFormFile(name: string, file: seq<byte>, content: Option<string>, forced: bool)
    ensures var f := UploadForm(name, file, content, forced);
      Field("filename", Text(name)) in f && Field("file", Blob(file)) in f
  {
  }

  /** `ignorewarnings` is sent exactly when the upload is forced. */
  lemma UploadFormForced(name: string, file: seq<byte>, content: Option<string>, forced: bool)
    ensures (Field("ignorewarnings", Text("1")) in UploadForm(name, file, content, forced)) <==> forced
  {
  }

  /** A page text is sent exactly when the content is a non-empty string. */
  lemma UploadFormText(name: string, file: seq<byte>, content: Option<string>, forced: bool)
    ensures (exists t :: Field("text", Text(t)) in UploadForm(name, file, content, forced))
      <==> content.Some? && content.value != ""
  {
    var f := UploadForm(name, file, content, forced);
    if content.Some? && content.value != "" {
      assert f[3] == Field("text", Text(content.value));
    } else {
      forall t ensures Field("text", Text(t)) !in f {
      }
    }
  }

  /** The client's upload form carries no token of its own. */
  lemma UploadFormNoToken(name: string, file: seq<byte>, content: Option<string>, forced: bool)
    ensures var f := UploadForm(name, file, content, forced); forall i :: 0 <= i < |f| ==> f[i].name != "token"
  {
  }

  /** The form of `updatePage` (`nocreate`) and of `updateOrCreatePage`, before any token. */
  function EditForm(title: string, content: string, nocreate: bool): (f: Form)
    ensures Field("title", Text(title)) in f && Field("text", Text(content)) in f
    ensures (Field("nocreate", Text("1")) in f) <==> nocreate
    ensures forall i :: 0 <= i < |f| ==> f[i].name != "token"
  {
    [Field("action", Text("edit")), Field("title", Text(title)), Field("text", Text(content)),
     Field("bot", Text("1")), Field("format", Text("json"))]
    + (if nocreate then [Field("nocreate", Text("1"))] else [])
  }

  /** `logIn`'s form. */
  function LoginForm(user: string, password: string, token: string): Form {
    [Field("action", Text("login")), Field("lgname", Text(user)), Field("lgpassword", Text(password)),
     Field("lgtoken", Text(token)), Field("format", Text("json")), Field("formatversion", Text("2"))]
  }

  /** The token fields of a form, in order. */
  function Tokens(f: Form): (ts: seq<string>)
    ensures |ts| <= |f|
  {
    if f == [] then []
    else (if f[0].name == "token" && f[0].value.Text? then [f[0].value.text] else []) + Tokens(f[1..])
  }

  lemma {:induction false} TokensAppend(f: Form, g: Form)
    ensures Tokens(f + g) == Tokens(f) + Tokens(g)
  {
    if f == [] {
      assert f + g == g;
    } else {
      assert (f + g)[1..] == f[1..] + g;
      TokensAppend(f[1..], g);
    }
  }

  /** Appending a token field adds that token at the end of the form's tokens. */
  lemma TokensAppendOne(f: Form, token: string)
    ensures Tokens(f + [TokenField(token)]) == Tokens(f) + [token]
  {
    TokensAppend(f, [TokenField(token)]);
  }

  /** A form built by the client carries no token of its own. */
  lemma {:induction false} NoTokens(f: Form)
    requires forall i :: 0 <= i < |f| ==> f[i].name != "token"
    ensures Tokens(f) == []
  {
    if f != [] {
      NoTokens(f[1..]);
    }
  }

  // ---------------------------------------------------------------- a session and one attempt

  /** A submitted call: its priority and its request. */
  datatype Call = Call(priority: Priority, request: Request)

  /** Await a run of calls, one after the other. */
  function AwaitCalls(q: State<Request>, calls: seq<Call>): State<Request>
    decreases |calls|
  {
    if calls == [] then q else AwaitCalls(Await(q, calls[0].priority, calls[0].request), calls[1..])
  }

  /** The requests of some calls, in order. */
  function Requests(calls: seq<Call>): (rs: seq<Request>)
    ensures |rs| == |calls| && forall i :: 0 <= i < |calls| ==> rs[i] == calls[i].request
    decreases |calls|
  {
    if calls == [] then [] else [calls[0].request] + Requests(calls[1..])
  }

  /** Every call is exactly one more submission. */
  lemma {:induction false} AwaitCallsCount(q: State<Request>, calls: seq<Call>)
    ensures Submitted(AwaitCalls(q, calls)) == Submitted(q) + |calls|
    decreases |calls|
  {
    if calls != [] {
      AwaitKeepsOrder(q, calls[0].priority, calls[0].request);
      AwaitCallsCount(Await(q, calls[0].priority, calls[0].request), calls[1..]);
    }
  }

  lemma {:induction false} AwaitCallsAppend(q: State<Request>, a: seq<Call>, b: seq<Call>)
    ensures AwaitCalls(q, a + b) == AwaitCalls(AwaitCalls(q, a), b)
    decreases |a|
  {
    if a == [] {
      assert a + b == b;
    } else {
      assert (a + b)[1..] == a[1..] + b;
      AwaitCallsAppend(Await(q, a[0].priority, a[0].request), a[1..], b);
    }
  }

  /**
   * From a dispatcher with nothing waiting, every awaited call is sent in the order
   * made, and nothing is left waiting.
   */
  lemma {:induction false} AwaitCallsSettled(q: State<Request>, calls: seq<Call>)
    requires Empty(q.queues)
    ensures AwaitCalls(q, calls).queues == NoQueues()
    ensures AwaitCalls(q, calls).dispatched == q.dispatched + Requests(calls)
    decreases |calls|
  {
    if calls == [] {
      assert q.queues == NoQueues();
    } else {
      var q1 := State(NoQueues(), true, q.dispatched + [calls[0].request]);
      AwaitCallsSettledStep(q, calls);
      AwaitCallsSettled(q1, calls[1..]);
      RequestsCons(q.dispatched, calls);
    }
  }

  lemma RequestsCons(d: seq<Request>, calls: seq<Call>)
    requires calls != []
    ensures d + Requests(calls) == (d + [calls[0].request]) + Requests(calls[1..])
  {
    assert Requests(calls) == [calls[0].request] + Requests(calls[1..]);
  }

  lemma AwaitCallsSettledStep(q: State<Request>, calls: seq<Call>)
    requires Empty(q.queues) && calls != []
    ensures AwaitCalls(q, calls) == AwaitCalls(State(NoQueues(), true, q.dispatched + [calls[0].request]), calls[1..])
  {
    AwaitSettled(q, calls[0].priority, calls[0].request);
  }

  /** What a client carries between calls: its dispatcher and its cached CSRF token. */
  datatype Session = Session(queue: State<Request>, csrf: Option<string>)

  /**
   * One pass of a token-carrying write loop: fetch a CSRF token unless one is cached,
   * append it to the form, and post the form at medium priority. `outcome` is the
   * post's reply, or the reply that made the token fetch throw.
   */
  datatype Attempt = Attempt(outcome: Result<Reply, Reply>, session: Session, form: Form, calls: seq<Call>)

  function TryPost(sess: Session, form: Form, server: Server): (a: Attempt)
    ensures a.calls == (if sess.csrf.None? then [Call(High, CsrfTokenQuery)] else [])
                     + (if a.outcome.Ok? then [Call(Medium, Post(a.form))] else [])
    ensures a.outcome.Err? ==>
      && sess.csrf.None? && a.session.csrf.None? && a.form == form
      && a.outcome.error == server(SendIndex(sess.queue, High), CsrfTokenQuery)
      && !a.outcome.error.TokenReply?
    ensures a.outcome.Ok? ==>
      && a.session.csrf.Some?
      && (sess.csrf.Some? ==> a.session.csrf == sess.csrf)
      && a.form == form + [TokenField(a.session.csrf.value)]
  {
    if sess.csrf.Some? then
      PostWith(sess.queue, sess.csrf.value, form, [], server)
    else
      var (token, q) := FetchToken(sess.queue, server);
      if token.Err? then
        assert AwaitCalls(q, []) == q;
        Attempt(Err(token.error), Session(q, None), form, [Call(High, CsrfTokenQuery)])
      else
        PostWith(q, token.value, form, [Call(High, CsrfTokenQuery)], server)
  }

  /**
   * An attempt's calls, and nothing else, were awaited one after the other; a post's
   * reply is the wiki's answer to it, sent last.
   */
  lemma TryPostExchange(sess: Session, form: Form, server: Server)
    ensures var a := TryPost(sess, form, server);
      && a.session.queue == AwaitCalls(sess.queue, a.calls)
      && (a.outcome.Ok? ==>
        var d := a.session.queue.dispatched;
        |d| > 0 && d[|d| - 1] == Post(a.form) && a.outcome.value == server(|d| - 1, Post(a.form)))
  {
    TryPostQueue(sess, form, server);
    TryPostReply(sess, form, server);
  }

  lemma TryPostQueue(sess: Session, form: Form, server: Server)
    ensures var a := TryPost(sess, form, server); a.session.queue == AwaitCalls(sess.queue, a.calls)
  {
    var a := TryPost(sess, form, server);
    if sess.csrf.None? {
      var q := Await(sess.queue, High, CsrfTokenQuery);
      if a.outcome.Ok? {
        assert a == PostWith(q, a.session.csrf.value, form, [Call(High, CsrfTokenQuery)], server);
        var post := Call(Medium, Post(a.form));
        assert a.calls == [Call(High, CsrfTokenQuery), post];
        assert AwaitCalls(sess.queue, a.calls) == AwaitCalls(q, [post]);
        assert AwaitCalls(q, [post]) == AwaitCalls(Await(q, Medium, Post(a.form)), []);
      } else {
        assert a.calls == [Call(High, CsrfTokenQuery)] && a.session.queue == q;
      }
    }
  }

  lemma TryPostReply(sess: Session, form: Form, server: Server)
    ensures var a := TryPost(sess, form, server);
      a.outcome.Ok? ==>
        var d := a.session.queue.dispatched;
        |d| > 0 && d[|d| - 1] == Post(a.form) && a.outcome.value == server(|d| - 1, Post(a.form))
  {
    var a := TryPost(sess, form, server);
    if a.outcome.Ok? {
      var q := if sess.csrf.None? then Await(sess.queue, High, CsrfTokenQuery) else sess.queue;
      assert a.session.queue == Await(q, Medium, Post(a.form));
      AwaitSent(q, Medium, Post(a.form));
    }
  }

  /** The post half of an attempt, once the token is known and `calls` are already queued. */
  function PostWith(q: State<Request>, token: string, form: Form, calls: seq<Call>, server: Server): (a: Attempt)
    requires |calls| <= 1
    ensures a.outcome.Ok? && a.session.csrf == Some(token)
    ensures a.form == form + [TokenField(token)]
    ensures a.calls == calls + [Call(Medium, Post(a.form))]
    ensures a.session.queue == Await(q, Medium, Post(a.form))
    ensures a.outcome.value == server(SendIndex(q, Medium), Post(a.form))
  {
    var f := form + [TokenField(token)];
    var (reply, q') := Exchange(q, Medium, Post(f), server);
    Attempt(Ok(reply), Session(q', Some(token)), f, calls + [Call(Medium, Post(f))])
  }

  // ---------------------------------------------------------------- a whole write loop

  /** Where a write loop stops: its result, the session after it, the last form, the calls it queued and the replies to its posts. */
  datatype Write = Write(result: Result<Reply, Reply>, session: Session, form: Form, calls: seq<Call>, replies: seq<Reply>)

  /** A call a write may queue: a medium-priority post or a high-priority token query. */
  predicate WriteCall(c: Call) {
    (c.request.Post? && c.priority == Medium) || c == Call(High, CsrfTokenQuery)
  }

  /** An attempt posts once when its token is in hand, and not at all otherwise. */
  lemma AttemptPosts(sess: Session, form: Form, server: Server)
    ensures var a := TryPost(sess, form, server); |Posts(a.calls)| == if a.outcome.Ok? then 1 else 0
  {
    var a := TryPost(sess, form, server);
    if sess.csrf.None? {
      assert a.calls[1..] == if a.outcome.Ok? then [Call(Medium, Post(a.form))] else [];
    }
  }

  /** Within an attempt only the last call can be a post, and a successful attempt ends with one. */
  lemma AttemptCallsShape(sess: Session, form: Form, server: Server)
    ensures var a := TryPost(sess, form, server);
      && 0 < |a.calls| <= 2
      && (|a.calls| == 2 ==> !a.calls[0].request.Post?)
      && (a.outcome.Ok? <==> a.calls[|a.calls| - 1].request.Post?)
  {
  }

  /** The posts among some calls. */
  function Posts(calls: seq<Call>): (r: seq<Call>)
    ensures |r| <= |calls|
  {
    if calls == [] then []
    else (if calls[0].request.Post? then [calls[0]] else []) + Posts(calls[1..])
  }

  lemma {:induction false} PostsAppend(a: seq<Call>, b: seq<Call>)
    ensures Posts(a + b) == Posts(a) + Posts(b)
    decreases |a|
  {
    if a == [] {
      assert a + b == b;
    } else {
      assert (a + b)[1..] == a[1..] + b;
      assert (a + b)[0] == a[0];
      PostsAppend(a[1..], b);
      var h := if a[0].request.Post? then [a[0]] else [];
      assert Posts(a + b) == h + Posts(a[1..] + b);
      assert h + (Posts(a[1..]) + Posts(b)) == (h + Posts(a[1..])) + Posts(b);
    }
  }

  lemma PostsAppendCount(a: seq<Call>, b: seq<Call>)
    ensures |Posts(a + b)| == |Posts(a)| + |Posts(b)|
  {
    PostsAppend(a, b);
  }

  function Repeat<T>(x: T, n: nat): (r: seq<T>)
    ensures |r| == n && forall i :: 0 <= i < n ==> r[i] == x
  {
    if n == 0 then [] else Repeat(x, n - 1) + [x]
  }

  lemma {:induction false} RepeatCons<T>(x: T, n: nat)
    ensures [x] + Repeat(x, n) == Repeat(x, n + 1)
  {
    if n > 0 {
      RepeatCons(x, n - 1);
      assert [x] + Repeat(x, n) == ([x] + Repeat(x, n - 1)) + [x];
    }
  }
}
