# lol_mw_icon, modelled in Dafny

lol_mw_icon keeps a MediaWiki (Fandom) wiki of League of Legends summoner icons up to
date. This project models its core in Dafny and proves properties of the model. The
core has three parts.

- **The hash ledger and its PNG carrier** (`src/PNGLock.ts`). A `PNGLock` holds two
  ledgers, `data` and `image`, from an icon id to the hex text of an MD5 digest.
  `toBuffer` packs each non-empty ledger into 20-byte records, in ascending id order.
  A record is the id as an unsigned 32-bit little-endian integer, then the 16 digest
  bytes. Each payload becomes a `tEXt` chunk (section 11.3.4.3 of the PNG
  Specification, Second Edition). Its keyword is `data` or `image`, and it goes just
  before the template's `IEND` chunk (section 11.2.5). `fromBuffer` reads the first
  chunk of each keyword back.
- **The priority, rate-limited dispatcher** (`src/limiter.ts`, `src/Client.ts`,
  `src/client/v1.js`). There are three FIFO buckets (high, medium, low) and one timer
  handle. Each tick dispatches the head of the first non-empty bucket. A tick that finds
  nothing clears the timer. Submitting while the timer is clear dispatches at once. The
  two wiki clients wrap their writes in a retry loop around a cached CSRF token, and
  the two files do this differently.
- **The sync drivers and their helpers** (`src/IconV2.ts`, `src/icons/v3.ts`,
  `src/icons/v3.js`, `src/stringify.ts`, `src/utils/deepEqual.ts`,
  `src/utils/deepEqual.js`). IconV2 does these things:
  - fingerprints each entry (MD5 of its canonical text, MD5 of its image);
  - compares the fingerprints with the ledger;
  - uploads what is new or changed;
  - saves the ledger every hundred uploads and once at the end.

  The v3 script instead compares the wiki's JSON page with `deepEqual`. It checks
  images in batches of at most 50 against the wiki's SHA-1s. Its JavaScript build then
  runs every entry a second time with no closing check, so a few images can stay
  unchecked (`IconsV3.JavaScriptLeavesUnchecked`). The helpers are:
  - batching (`chunks`);
  - set-name grouping;
  - re-keying descriptions and rarities by region;
  - the two renderers `canonical` and `lua`;
  - structural JSON equality.

Modules, one per file:

- `Wrappers` holds `Option` and `Result`.
- `SeqFacts` holds one sequence lemma.
- `Json` models JSON values and JavaScript object operations. An object is its member
  list in insertion order.
- `Bytes` models little-endian 32-bit integers and Node's `hex` encoding.
- `PngLedger` models the ledger and `PNGLock`.
- `Dispatch` is the dispatcher as a pure state machine.
- `RateLimiter` is the `Limiter` class.
- `Wiki` holds requests, replies, forms and one write attempt.
- `MwClient` and `MwClientV1` are the two client classes.
- `Stringify` holds the renderers.
- `Equality` holds `deepEqual`.
- `RiotEntry` is the Riot entry shape and its re-keying by region.
- `SetBinding` is the set-name binding.
- `IconV2` and `IconsV3` are the two drivers.

Code that updates state in place is modelled as classes or methods with loops:
- the lock's maps, the limiter's and clients' fields, and v3's image queue and call log are class fields;
- the packing loop fills an `array`;
- the binding loop, `chunks`, the IconV2 main loop and the `deepEqual` loops stay loops.

Each such method is proved equal to a specification function, and the properties are
proved as lemmas about those functions.

Where the code and its documentation disagree, the model follows the code:
- `fromBuffer` fails only when fewer than 4 bytes trail the last whole record. It rejects no other payload whose length is not a multiple of 20; 4 to 19 trailing bytes read as a short digest (`PngLedger.UnpackFails`, `PngLedger.ShortRecordExample`).
- `src/Client.ts` never clears its cached token, so a retried write reuses it. Only `src/client/v1.js` clears it on `badtoken`.
- On an idle dispatcher, the first submission is dispatched at once, whatever its priority (`Dispatch.IdleScenario`). Priority order holds only among entries that wait (`Dispatch.BusyScenario`).

## Model

| member | source | states |
|---|---|---|
| Bytes.LE32RoundTrip | src/PNGLock.ts:31 | reading back a 32-bit little-endian write gives the number |
| Bytes.ReadLE32RoundTrip | src/PNGLock.ts:74 | writing back a 32-bit read gives the same four bytes, so the encoding is a bijection |
| Bytes.EncodeHex | src/PNGLock.ts:77 | the hex text of some bytes is two digits per byte |
| Bytes.EncodeHexLower | src/PNGLock.ts:77 | those digits are lowercase hex digits |
| Bytes.DecodeHex | src/PNGLock.ts:33 | hex decoding yields at most one byte per two characters |
| Bytes.DecodeEncodeHex | src/PNGLock.ts:77 | decoding the hex text of some bytes gives those bytes |
| Bytes.EncodeDecodeHex | src/PNGLock.ts:33 | lowercase hex text decodes to half as many bytes and encodes back to itself |
| PngLedger.SortedIdsProperties | src/PNGLock.ts:26-27 | the sorted ids are the ledger's ids, each once, in strictly ascending order |
| PngLedger.SortedIdsLength | src/PNGLock.ts:26-27 | there are as many sorted ids as the ledger has ids |
| PngLedger.SortedIdsMembers | src/PNGLock.ts:26-27 | an id is among the sorted ids exactly when the ledger holds it |
| PngLedger.SortedIdsAscending | src/PNGLock.ts:26-27 | the sorted ids strictly ascend |
| PngLedger.SortIds | src/PNGLock.ts:26-27 | the method computes the sorted id sequence |
| PngLedger.WriteUInt32LE | src/PNGLock.ts:31 | the write replaces four bytes at the index with the id's little-endian bytes and nothing else |
| PngLedger.SetBytes | src/PNGLock.ts:34 | the copy replaces the bytes at the index and leaves the rest |
| PngLedger.PackStep | src/PNGLock.ts:29-36 | one loop pass writes the id, then the digest, and advances by 20; a digest that runs past the buffer's end fails |
| PngLedger.PackRecord | src/PNGLock.ts:29-36 | the array pass does exactly what the packing function's step does |
| PngLedger.Pack | src/PNGLock.ts:23-38 | packing a ledger (zero-filled buffer, sorted ids, loop) computes the ledger's payload |
| PngLedger.Record | src/PNGLock.ts:29-36 | one record is 20 bytes |
| PngLedger.Records | src/PNGLock.ts:24 | the records of n ids are 20*n bytes |
| PngLedger.LedgerRecords | src/PNGLock.ts:24 | a ledger's payload is 20 bytes per entry |
| PngLedger.PackFromRecords | src/PNGLock.ts:29-36 | packing onto a zero tail appends exactly the records, in order |
| PngLedger.PackLedgerRecords | src/PNGLock.ts:23-38 | with 32-bit ids and digests of at most 16 bytes, packing succeeds with one 20-byte record per id in ascending id order |
| PngLedger.PackFromIdsInRange | src/PNGLock.ts:31 | a successful pack met no id of 2^32 or more |
| PngLedger.PackLedgerIdsInRange | src/PNGLock.ts:31 | `toBuffer` fails whenever some id is 2^32 or more |
| PngLedger.RecordAt | src/PNGLock.ts:29-36 | the k-th 20-byte slice of a payload is the k-th id's record |
| PngLedger.RecordId | src/PNGLock.ts:74 | the id read from the k-th record is the k-th id |
| PngLedger.RecordsAscending | src/PNGLock.ts:26-36 | the ids read back from a payload are strictly ascending, whatever the insertion order |
| PngLedger.RecordIdsAscend | src/PNGLock.ts:26-27 | any two records of a payload hold ascending ids |
| PngLedger.Unpack | src/PNGLock.ts:73-80 | the `while` loop over the payload computes the reading function |
| PngLedger.UpdatesSpec | src/PNGLock.ts:79 | applying records sets exactly their ids to their digests and keeps every other key |
| PngLedger.UnpackRecords | src/PNGLock.ts:70-81 | reading the records of well-formed entries applies them to the accumulator |
| PngLedger.UpdatesAll | src/PNGLock.ts:79 | applying the records of all of a ledger's ids to the empty map rebuilds the ledger |
| PngLedger.UnpackPackLedger | src/PNGLock.ts:20-59 | a ledger of 32-bit ids and MD5 digests survives packing and reading back unchanged |
| PngLedger.FirstText | src/PNGLock.ts:64-68 | there is a payload exactly when some `tEXt` chunk carries the keyword |
| PngLedger.FirstTextAppend | src/PNGLock.ts:64-68 | the first matching chunk is searched for in the front part first |
| PngLedger.WriteLedgerLayout | src/PNGLock.ts:21-55 | the written list is the template body unchanged, then a `data` chunk exactly when data is non-empty, then an `image` chunk exactly when image is non-empty, with the template's last chunk (`IEND`) still last |
| PngLedger.FirstTextMiddle | src/PNGLock.ts:64-68 | a keyword absent from both ends of a list is found in its middle |
| PngLedger.LedgerChunkOf | src/PNGLock.ts:23-37 | a well-formed ledger packs into chunks that all carry its keyword |
| PngLedger.LedgerChunkPayload | src/PNGLock.ts:67-68 | each ledger reads back from its own chunk, whatever chunks of the other keyword sit beside it |
| PngLedger.LedgerRoundTrip | src/PNGLock.ts:61-96 | `fromBuffer(toBuffer(lock))` has the same `data` and `image` maps, for 32-bit ids and MD5 digests |
| PngLedger.ReadAssembled | src/PNGLock.ts:61-96 | reading a list whose ledger chunks all sit in its middle gives those two ledgers |
| PngLedger.UnpackFails | src/PNGLock.ts:74 | reading fails exactly when fewer than 4 bytes trail the last whole record |
| PngLedger.ShortRecordExample | src/PNGLock.ts:77 | a 6-byte payload reads as one id with a 2-byte digest |
| PngLedger.DigestBytes | src/PNGLock.ts:33 | an MD5 digest text decodes to 16 bytes and encodes back to itself |
| PngLedger.PNGLock.constructor | src/PNGLock.ts:15-18 | a new lock has two empty maps |
| PngLedger.PNGLock.ToBuffer | src/PNGLock.ts:20-59 | `toBuffer` computes the layout of the ledger chunks before `IEND` and changes neither the maps nor the template |
| PngLedger.PNGLock.FromBuffer | src/PNGLock.ts:61-96 | `fromBuffer` succeeds exactly when both payloads read and gives a fresh lock holding them; a missing keyword leaves that map empty |
| Dispatch.Rank | src/limiter.ts:19 | the buckets are walked high, medium, low |
| Dispatch.Push | src/limiter.ts:28 | a push appends the entry to the tail of its bucket |
| Dispatch.PushOthers | src/limiter.ts:28 | a push changes no other bucket |
| Dispatch.Shift | src/limiter.ts:39 | a shift removes the head of its bucket |
| Dispatch.ShiftOthers | src/limiter.ts:39 | a shift changes no other bucket |
| Dispatch.FirstNonEmpty | src/limiter.ts:38-44 | the bucket taken is non-empty, and there is none exactly when all are empty |
| Dispatch.FirstNonEmptyFirst | src/limiter.ts:38-44 | every bucket ranked before the one taken is empty |
| Dispatch.FirstNonEmptyAt | src/limiter.ts:38-44 | walking the buckets high, medium, low, the first non-empty one met is the one taken |
| Dispatch.TickDispatchesHead | src/limiter.ts:37-48 | a tick dispatches only the head of the first non-empty bucket, or clears the timer when all are empty |
| Dispatch.TickKeepsOrder | src/limiter.ts:37-48 | the log followed by what waits is unchanged by a tick (priority order, FIFO within a bucket) |
| Dispatch.ShiftPending | src/limiter.ts:39 | the dispatched head followed by what is left is everything that waited |
| Dispatch.TickValid | src/limiter.ts:45-47 | ticks keep the invariant that a clear timer means empty buckets |
| Dispatch.SubmitValid | src/limiter.ts:29-32 | submitting keeps the invariant and leaves a timer pending |
| Dispatch.SubmitIdle | src/limiter.ts:29-32 | on an idle dispatcher a submission is dispatched at once |
| Dispatch.SubmitBusy | src/limiter.ts:26-28 | with a timer pending, a submission only joins the tail of its bucket |
| Dispatch.Conservation | src/limiter.ts:26-48 | nothing is lost or duplicated: every submission is dispatched or waiting, exactly once |
| Dispatch.SubmitCount | src/limiter.ts:26-35 | each submission counts once |
| Dispatch.TickMultiset | src/limiter.ts:37-48 | a tick moves an entry from the buckets to the log, as multisets |
| Dispatch.PushPending | src/limiter.ts:28 | a push adds one copy of the entry to what waits |
| Dispatch.RearmIsTick | src/Client.ts:36-50 | with a timer pending, the clients' one-shot re-arm behaves as the limiter's interval tick |
| Dispatch.AwaitIsRearms | src/Client.ts:36-57 | awaiting a call is pushing it, `processQueue` at once when no timeout is pending, then the timeouts until it is sent: every entry waiting at its priority or above goes out first, in order, then the call; the later buckets still wait and a timeout is pending |
| Dispatch.SubmitRearmsAhead | src/Client.ts:36-57 | after those timeouts nothing waits at the call's priority or above, the later buckets are as they were, the send order is kept, and exactly `Ahead + 1` entries went out |
| Dispatch.RearmsAhead | src/Client.ts:36-50 | with a timeout pending, n timeouts send the first n entries at a priority or above it, in order, and touch no later bucket |
| Dispatch.TickAhead | src/Client.ts:37-47 | a tick with an entry waiting at a priority or above sends one of those and leaves the later buckets |
| Dispatch.PushSplit | src/Client.ts:54 | the entries ahead of a pushed one, the entry, and those behind it are everything then waiting |
| Dispatch.BehindBuckets | src/Client.ts:37-47 | what still waits once a call at a priority is sent is exactly the buckets after that priority |
| Dispatch.AwaitSent | src/Client.ts:52-57 | the awaited call is the last entry sent before it returns, at position `SendIndex` |
| Dispatch.AwaitKeepsOrder | src/Client.ts:36-57 | awaiting loses nothing and keeps priority order: the log followed by what waits is what the push alone made it, with one more submission |
| Dispatch.AwaitSettled | src/Client.ts:52-57 | from a dispatcher with nothing waiting, an awaited call is sent at once and nothing is left waiting |
| Dispatch.Drain | src/limiter.ts:37-48 | a pending timer drains everything, high first, each bucket in arrival order, and the next tick clears it |
| Dispatch.RunSplit | src/limiter.ts:37-48 | n ticks are one tick followed by n-1 ticks |
| Dispatch.BusyScenario | src/limiter.ts:26-48 | low, high, medium submitted while busy come out high, medium, low |
| Dispatch.IdleScenario | src/limiter.ts:29-32 | on an idle dispatcher the first submission goes at once and the other two wait in priority order |
| RateLimiter.Limiter.constructor | src/limiter.ts:11-14 | a new limiter stores `minTime` as its delay, ignores `maxConcurrent`, and starts idle with empty buckets |
| RateLimiter.Limiter.ShiftBucket | src/limiter.ts:39 | shifting yields the bucket's head, or `undefined` for an empty bucket |
| RateLimiter.Limiter.ProcessEntry | src/limiter.ts:37-48 | `processEntry` is one dispatcher tick and keeps the invariant |
| RateLimiter.Limiter.Schedule | src/limiter.ts:26-35 | `schedule` is one submission, at medium by default, and keeps the invariant |
| RateLimiter.ScheduleDefault | src/limiter.ts:26-32 | on a new limiter the first call runs at once and the interval is set |
| Wiki.Exchange | src/Client.ts:52-57 | an awaited call returns once sent, as the request at position `SendIndex`, and its reply is the wiki's answer to that request at that position |
| Wiki.FetchToken | src/Client.ts:94-115 | the token query is awaited at high priority; its reply is the answer to the query at its send position, and an error reply (or one without a token) throws |
| Wiki.UploadFormFile | src/Client.ts:120-129 | the upload form carries the file name and the file |
| Wiki.UploadFormForced | src/Client.ts:124 | `ignorewarnings` is sent exactly when the upload is forced |
| Wiki.UploadFormText | src/Client.ts:123 | a page text is sent exactly when the content is a non-empty string |
| Wiki.UploadFormNoToken | src/Client.ts:117-129 | the upload form has no token field of its own |
| Wiki.EditForm | src/Client.ts:173-184 | the edit form has the title and text, `nocreate` exactly for `updatePage`, and no token |
| Wiki.Tokens | src/client/v1.js:177 | the token fields of a form, in order |
| Wiki.TokensAppend | src/client/v1.js:177 | the tokens of two forms together are the first form's then the second's |
| Wiki.TokensAppendOne | src/Client.ts:136 | appending a token field adds that token at the end |
| Wiki.NoTokens | src/Client.ts:118-129 | a form built without a token field has no tokens |
| Wiki.AwaitCallsCount | src/Client.ts:52-57 | every awaited call is one more submission |
| Wiki.AwaitCallsAppend | src/Client.ts:52-57 | awaiting two runs of calls is awaiting one run after the other |
| Wiki.AwaitCallsSettled | src/Client.ts:36-57 | from a dispatcher with nothing waiting, awaited calls are sent one by one, in order, and nothing is left waiting |
| Wiki.TryPost | src/Client.ts:132-146 | one pass fetches a token (at high) only when none is cached, appends it to the form and posts at medium; a failed fetch posts nothing |
| Wiki.TryPostExchange | src/Client.ts:132-146 | the dispatcher after a pass is the one before with the pass's calls awaited in turn; when the post is made it is the last request sent, and its reply is the answer at that position |
| Wiki.TryPostQueue | src/Client.ts:132-146 | the dispatcher after a pass is the one before with the pass's calls awaited in turn |
| Wiki.TryPostReply | src/Client.ts:138-145 | a successful pass's reply is the server's answer to its post, the last of its calls |
| Wiki.AttemptPosts | src/Client.ts:132-146 | a pass posts once when it has a token and not at all otherwise |
| Wiki.AttemptCallsShape | src/Client.ts:132-146 | a pass makes one or two calls, and only its last call can be the post |
| Wiki.Posts | src/Client.ts:138 | the posts among some calls are no more than the calls |
| Wiki.PostsAppend | src/Client.ts:132-146 | the posts of two runs of calls together are the posts of each, in order |
| Wiki.PostsAppendCount | src/Client.ts:132-146 | the post count of two runs adds up |
| MwClient.WriteLoopStep | src/Client.ts:132-146 | a pass ends the loop on a failed fetch, a reply that is not `badtoken`, or the last pass; otherwise the loop goes on from the pass's session and form |
| MwClient.WriteRetries | src/Client.ts:132-147 | a write posts at most `MAX_ATTEMPTS` (2) times; every post but the last drew `badtoken`; an early stop is on a reply that is not `badtoken`; the result is the last reply |
| MwClient.WriteQueue | src/Client.ts:132-147 | the dispatcher after a write is the one before with the write's calls awaited in turn, one submission each |
| MwClient.WriteSends | src/Client.ts:132-147 | from a client with nothing waiting, a write sends all its calls in order and leaves nothing waiting |
| MwClient.WriteCalls | src/Client.ts:132-146 | token queries go at high priority and posts at medium |
| MwClient.WritePosts | src/Client.ts:138 | a write makes one post per reply |
| MwClient.WritePostsAgain | src/Client.ts:132-146 | a retried write still makes one post per reply |
| MwClient.WriteFetchesOnce | src/Client.ts:133-135 | the token is fetched at most once, as the first call, and not at all (and still cached afterwards) when one was cached |
| MwClient.WriteFormTokens | src/Client.ts:136 | a successful write leaves a token cached, and the form carries it once per post |
| MwClient.BadTokenTwice | src/Client.ts:185-200 | two `badtoken` replies, to the posts sent at `SendIndex` and after it: the second is returned, the retry reuses the cached token, and the form carries it twice |
| MwClient.BadTokenTwiceSends | src/Client.ts:132-147 | the same write from a client with nothing waiting sends the two posts, in order, and nothing else |
| MwClient.Client.constructor | src/Client.ts:11-15 | a new client is idle with empty buckets and no token |
| MwClient.Client.ShiftBucket | src/Client.ts:39-44 | shifting yields the bucket's head, or nothing for an empty bucket |
| MwClient.Client.ProcessQueue | src/Client.ts:36-50 | `processQueue` sends one request and re-arms, or clears the handle when nothing waits |
| MwClient.Client.Call | src/Client.ts:36-57 | `await call(...)` pushes the request, runs `processQueue` at once only when no timeout is pending, and returns after the timeouts that send it: the dispatcher and reply are `Exchange`'s |
| MwClient.Client.GetCSRFToken | src/Client.ts:94-115 | `getCSRFToken` is the high-priority token query and throws on an error reply |
| MwClient.Client.LogIn | src/Client.ts:59-92 | `logIn` queries a login token, then posts the login form, both at high priority; a reply without a login token throws |
| MwClient.Client.GetImageInfo | src/Client.ts:150-171 | `getImageInfo` is one medium-priority query |
| MwClient.Client.Attempt | src/Client.ts:132-146 | the method performs one pass of the write loop |
| MwClient.Client.PostWithToken | src/Client.ts:132-147 | the method's `for` loop computes the write |
| MwClient.Client.UploadFile | src/Client.ts:117-148 | `uploadFile` is the write loop on the upload form |
| MwClient.Client.UpdatePage | src/Client.ts:173-201 | `updatePage` is the write loop on the edit form with `nocreate` |
| MwClient.Client.UpdateOrCreatePage | src/Client.ts:203-229 | `updateOrCreatePage` is the write loop on the edit form without `nocreate` |
| MwClientV1.WriteLoopStep | src/client/v1.js:172-188 | a pass ends the loop unless it drew `badtoken`; a `badtoken` clears the cached token, then either the loop goes on or, with no retries left, it returns that reply |
| MwClientV1.WriteLoopStop | src/client/v1.js:172-188 | a pass that does not draw `badtoken` with retries left is the whole write: its outcome, form and calls, its one reply, and the token cleared after `badtoken` |
| MwClientV1.WriteLoopAgain | src/client/v1.js:172-188 | a retried write is the pass's calls and reply followed by the rest of the loop |
| MwClientV1.WriteRetries | src/client/v1.js:172-190 | the do-while with `MAX_ATTEMPTS` = 1 posts at most twice, and the result is the last reply |
| MwClientV1.WriteBadTokensFirst | src/client/v1.js:186 | every post but the last drew `badtoken` |
| MwClientV1.WriteStopsOnSuccess | src/client/v1.js:186 | a loop that stopped before its last allowed pass stopped on a reply that is not `badtoken` |
| MwClientV1.WriteQueue | src/client/v1.js:172-188 | the dispatcher after a write is the one before with the write's calls awaited in turn |
| MwClientV1.WriteQueueRetry | src/client/v1.js:172-188 | the same for a write whose first pass drew `badtoken` with a retry left |
| MwClientV1.WriteSends | src/client/v1.js:172-190 | from a client with nothing waiting, a write sends all its calls in order and leaves nothing waiting |
| MwClientV1.WriteSubmitted | src/client/v1.js:172-188 | the dispatcher counts one more submission per call of the write |
| MwClientV1.WriteCalls | src/client/v1.js:172-188 | token queries go at high priority and posts at medium |
| MwClientV1.WriteCallsRetry | src/client/v1.js:172-188 | the same after a retried pass |
| MwClientV1.WritePosts | src/client/v1.js:177-185 | a write makes one post per reply |
| MwClientV1.WritePostsAgain | src/client/v1.js:172-188 | a retried write still makes one post per reply |
| MwClientV1.RefetchesAppend | src/client/v1.js:187 | joining calls keeps the pattern "every non-final post is followed by a token query" |
| MwClientV1.WriteRefetches | src/client/v1.js:174-187 | a `badtoken` clears the token, so every post that is not the last call is followed by a fresh high-priority token query |
| MwClientV1.WriteRefetchesAgain | src/client/v1.js:174-187 | the same after a retried pass |
| MwClientV1.WriteClearsToken | src/client/v1.js:187-190 | a write that ends on `badtoken` (or a failed fetch) leaves no token cached, and one that ends on any other reply leaves one |
| MwClientV1.FirstCallFetches | src/client/v1.js:174-176 | with no token cached, the first call is the token query |
| MwClientV1.WriteFormTokens | src/client/v1.js:177 | a successful write's form gained one token per post, after the tokens it had |
| MwClientV1.WriteFormTokensRetry | src/client/v1.js:177 | the same after a retried pass |
| MwClientV1.BadTokenTwice | src/client/v1.js:172-190 | two `badtoken` replies make post, fresh token query, post with both tokens, answered at `SendIndex`, the next and the one after; the second reply is returned and no token stays cached |
| MwClientV1.BadTokenTwiceSends | src/client/v1.js:172-190 | the same write from a client with nothing waiting sends the stale post, the token query and the second post, in that order, and nothing else |
| MwClientV1.Client.constructor | src/client/v1.js:14-18 | a new client is idle with empty buckets and no token |
| MwClientV1.Client.ShiftBucket | src/client/v1.js:60-69 | shifting yields the bucket's head, or nothing for an empty bucket |
| MwClientV1.Client.ProcessQueue | src/client/v1.js:60-69 | `processQueue` sends one request and re-arms, or clears the handle when nothing waits |
| MwClientV1.Client.Call | src/client/v1.js:60-83 | `await call(...)` pushes at the tail, runs `processQueue` at once only when the handle is null, and returns after the timeouts that send it: the dispatcher and reply are `Exchange`'s |
| MwClientV1.Client.GetCSRFToken | src/client/v1.js:127-148 | `getCSRFToken` is the high-priority token query and throws on an error reply |
| MwClientV1.Client.LogIn | src/client/v1.js:91-125 | `logIn` queries a login token, then posts the login form, both at high priority |
| MwClientV1.Client.GetImageInfo | src/client/v1.js:197-219 | `getImageInfo` is one medium-priority query |
| MwClientV1.Client.Attempt | src/client/v1.js:174-186 | the method performs one pass of the do-while |
| MwClientV1.Client.PostWithToken | src/client/v1.js:172-190 | the method's do-while computes the write |
| MwClientV1.Client.UploadFile | src/client/v1.js:157-191 | `uploadFile` is the write loop on the upload form |
| MwClientV1.Client.UpdatePage | src/client/v1.js:226-257 | `updatePage` is the write loop on the edit form with `nocreate` |
| MwClientV1.Client.UpdateOrCreatePage | src/client/v1.js:264-293 | `updateOrCreatePage` is the write loop on the edit form without `nocreate` |
| Stringify.EscapeString | src/stringify.ts:45-47 | the escaped text has no raw LF, CR, U+2028 or U+2029 and is no shorter than the input |
| Stringify.UnescapeChar | src/stringify.ts:26-43 | each character's replacement reads back as that character |
| Stringify.EscapeRoundTrip | src/stringify.ts:26-47 | unescaping an escaped string gives the string |
| Stringify.EscapeInjective | src/stringify.ts:45-47 | distinct strings escape to distinct texts |
| Stringify.NatToString | src/stringify.ts:64-68 | a natural number renders as a non-empty run of decimal digits |
| Stringify.IntToString | src/stringify.ts:64-68 | a number renders on one line |
| Stringify.NatToStringValue | src/stringify.ts:64-68 | the digits read back as the number, with no leading zero |
| Stringify.IntToStringValue | src/stringify.ts:64-68 | a `-` comes first exactly for a negative number, and the digits read back as its magnitude |
| Stringify.IntToStringInjective | src/stringify.ts:64-68 | different numbers render differently |
| Stringify.Spaces | src/stringify.ts:56-58 | the padding is n characters long |
| Stringify.SpacesBlank | src/stringify.ts:56-58 | every character of the padding is a space |
| Stringify.SpacesAdd | src/stringify.ts:56-58 | m spaces then n spaces are m+n spaces |
| Stringify.JoinSingleLine | src/stringify.ts:69-76 | single-line parts joined by a single-line separator make one line |
| Stringify.JoinStart | src/stringify.ts:69-76 | a join is its first part, then the separator before each later part |
| Stringify.LessIrreflexive | src/stringify.ts:80 | the key order is irreflexive |
| Stringify.LessTransitive | src/stringify.ts:80 | the key order is transitive |
| Stringify.LessTotal | src/stringify.ts:80 | distinct keys are ordered one way or the other |
| Stringify.LessAsymmetric | src/stringify.ts:80 | the key order is asymmetric |
| Stringify.AtMostTransitive | src/stringify.ts:80 | "not less" is transitive |
| Stringify.InsertByKeyMultiset | src/stringify.ts:80 | an insertion step adds exactly the member |
| Stringify.InsertByKeySorted | src/stringify.ts:80 | an insertion step keeps the members sorted by key |
| Stringify.InsertBehindHead | src/stringify.ts:80 | inserting behind the head keeps every key at or above the head's |
| Stringify.ConsSorted | src/stringify.ts:80 | a head no greater than a sorted tail gives a sorted list |
| Stringify.InsertByKeyKeys | src/stringify.ts:80 | an insertion step adds exactly the member's key to the key set |
| Stringify.InsertByKeyUnique | src/stringify.ts:80 | inserting a new key keeps the keys unique |
| Stringify.SortByKeySorted | src/stringify.ts:80 | the sorted members are in ascending key order |
| Stringify.SortByKeyMultiset | src/stringify.ts:80 | the sort is a permutation of the members |
| Stringify.SortByKeyKeys | src/stringify.ts:80 | sorting keeps the key set |
| Stringify.SortByKeyUnique | src/stringify.ts:80 | sorting keeps the keys unique |
| Stringify.SortedHeads | src/stringify.ts:80 | two sorted lists with the same members and unique keys share their first member |
| Stringify.SortedUnique | src/stringify.ts:80 | two sorted lists with the same members and unique keys are equal |
| Stringify.MultisetTails | src/stringify.ts:80 | equal multisets with equal heads have equal tails |
| Stringify.SortedTail | src/stringify.ts:80 | the tail of a sorted list is sorted |
| Stringify.SortByKeyPermutation | src/stringify.ts:80 | the sorted order depends only on which members there are, not on their order |
| Stringify.LayoutFlat | src/stringify.ts:56-58 | without indentation a bracketed layout is the parts joined by bare commas |
| Stringify.LayoutSingleLine | src/stringify.ts:56-58 | without indentation a layout adds no line break |
| Stringify.CanonicalSingleLine | src/stringify.ts:55-89 | `canonical(v, 0)` contains no raw line terminator |
| Stringify.CanonicalArraySingleLine | src/stringify.ts:69-76 | an array's canonical form at indentation 0 is one line |
| Stringify.CanonicalObjectSingleLine | src/stringify.ts:77-86 | an object's canonical form at indentation 0 is one line |
| Stringify.LuaSingleLine | src/stringify.ts:91-125 | `lua(v, 0)` contains no raw line terminator |
| Stringify.LuaArraySingleLine | src/stringify.ts:107-114 | a Lua array at indentation 0 is one line |
| Stringify.LuaObjectSingleLine | src/stringify.ts:115-122 | a Lua table at indentation 0 is one line |
| Stringify.CanonicalIgnoresMemberOrder | src/stringify.ts:77-86 | objects holding the same members in any insertion order render identically |
| Stringify.LayoutIndented | src/stringify.ts:75 | with indentation, the layout is the opening line, the parts joined by a comma, line break and indent, and the closing line at the padding |
| Stringify.LayoutStart | src/stringify.ts:56-58 | an indented layout opens with a line break, the indent, then its first part |
| Stringify.CanonicalArrayIndent | src/stringify.ts:69-76 | an indented array's first element starts on a new line, after `spaces*(depth+1)` spaces |
| Stringify.JoinPrefixed | src/stringify.ts:75 | a prefix written before the first part and after every separator is a prefix on every part |
| Stringify.LayoutLines | src/stringify.ts:73-75 | with indentation, parts that are the padding then a body put each body on its own line at `spaces*(depth+1)`, comma after all but the last, and close on a line at `spaces*depth` |
| Stringify.LayoutEmpty | src/stringify.ts:75 | an empty indented container still writes a line break, the first indent, a line break and the padding between its brackets |
| Stringify.CanonicalArrayLines | src/stringify.ts:69-76 | an indented non-empty array has every element on its own line at `spaces*(depth+1)`, then `]` at `spaces*depth` |
| Stringify.CanonicalObjectLines | src/stringify.ts:77-86 | an indented non-empty object has every `"key": value` on its own line at `spaces*(depth+1)`, in key order, then `}` at `spaces*depth` |
| Stringify.LuaArrayLines | src/stringify.ts:107-114 | an indented non-empty Lua array has every element on its own line at `spaces*(depth+1)`, then `}` at `spaces*depth` |
| Stringify.LuaObjectLines | src/stringify.ts:115-122 | an indented non-empty Lua table has every `["key"] = value` on its own line at `spaces*(depth+1)`, in the object's order, then `}` at `spaces*depth` |
| Stringify.LayoutIndentFirst | src/stringify.ts:73 | a first part padded to its depth starts at `spaces*(depth+1)` |
| Stringify.StringRendering | src/stringify.ts:61-63 | a string renders as a quote, its escaped contents and a quote, alike in both renderers, and the contents read back |
| Stringify.ScalarExamples | src/stringify.ts:64-68 | null renders as `null` (canonical) and `nil` (Lua); `true` and `-12` render by interpolation |
| Stringify.SortExample | src/stringify.ts:80 | an illustration on one input: keys `b`, `a` sort to `a`, `b` |
| Stringify.LuaObjectExample | src/stringify.ts:115-122 | an illustration on one input: the Lua form of `{b: 1, a: null}` keeps `b` first |
| Stringify.LuaFlatObject | src/stringify.ts:115-122 | a flat Lua table lists `["key"] = value` members in the object's own order |
| Stringify.LuaFlatParts | src/stringify.ts:115-122 | the member parts of a flat Lua table are `["key"] = value` |
| Stringify.LuaTwoMembers | src/stringify.ts:115-122 | a two-member Lua table renders its members in the order given |
| Equality.GetType | src/utils/deepEqual.js:24-39 | `getType` tells null and arrays apart from objects |
| Equality.DeepEqual | src/utils/deepEqual.ts:48-64 | `deepEqual` decides structural equality; different kinds are unequal, scalars compare with `===` |
| Equality.DeepEqualObjects | src/utils/deepEqual.js:46-55 | the key-walking loop with its count decides object equality |
| Equality.DeepEqualArray | src/utils/deepEqual.ts:40-46 | the index loop decides array equality; equal arrays have equal lengths |
| Equality.JsonEqualReflexive | src/utils/deepEqual.ts:48-64 | every value whose objects have unique keys equals itself |
| Equality.UniqueKeysCard | src/utils/deepEqual.ts:29-38 | an object has as many keys as members |
| Equality.SameKeys | src/utils/deepEqual.js:46-55 | the count check plus membership gives the same key set |
| Equality.KeyIndex | src/utils/deepEqual.ts:29-38 | a key has an index among the members |
| Equality.JsonEqualSymmetric | src/utils/deepEqual.js:75-91 | `deepEqual` is symmetric |
| Equality.ObjectEqualIff | src/utils/deepEqual.ts:29-38 | objects are equal exactly when they have the same key set and equal values per key, whatever the key order |
| Json.UniqueKeysCons | src/IconV2.ts:110-123 | unique keys, unfolded one member at a time |
| Json.InKeys | src/IconV2.ts:110-123 | a key is listed exactly when some member carries it |
| Json.Lookup | src/IconV2.ts:110-123 | `o[k]` finds a value exactly when the key is present |
| Json.LookupAt | src/IconV2.ts:110-123 | with unique keys, `o[k]` reads the member carrying `k` |
| Json.Member | src/IconV2.ts:266 | only objects have members |
| Json.Remove | src/IconV2.ts:111 | the rest pattern drops the key and keeps every other key's value |
| Json.RemoveUnique | src/IconV2.ts:111 | the rest pattern keeps the keys unique |
| Json.Assign | src/IconV2.ts:112-120 | assignment sets the key and keeps every other key's value |
| Json.AssignKeys | src/IconV2.ts:112-120 | assignment keeps an existing key's position and appends a new key |
| Json.AssignUnique | src/IconV2.ts:112-120 | assignment keeps the keys unique |
| RiotEntry.Props | src/IconV2.ts:113-119 | `{ region, ...props }` drops `region` |
| RiotEntry.LastOfRegion | src/IconV2.ts:113-119 | the last item of a region, or none exactly when no item has it |
| RiotEntry.ByRegionLookup | src/IconV2.ts:113-119 | the re-keyed object has unique keys, and a region's value is the rest of its last item (later duplicates overwrite earlier ones) |
| RiotEntry.ByRegionKeys | src/IconV2.ts:113-119 | the re-keyed object's keys are exactly the regions, each once |
| RiotEntry.Descriptions | src/IconV2.ts:112 | the descriptions are regional items |
| RiotEntry.Rarities | src/IconV2.ts:112 | the rarities are regional items |
| RiotEntry.WithImagePathIndex | src/icons/v3.ts:22 | the filter keeps every entry that has `imagePath`, and says where |
| SetBinding.AddName | src/IconV2.ts:61 | pushing unless present leaves the name in the list and adds no other |
| SetBinding.BindSets | src/IconV2.ts:53-63 | the binding loop computes the binding |
| SetBinding.ListingMembers | src/icons/v3.ts:246-258 | the names of the sets listing an id are exactly those sets' names |
| SetBinding.FirstIndex | src/icons/v3.ts:256 | the first occurrence of a name |
| SetBinding.AddNameTwice | src/IconV2.ts:61 | pushing a name that is already there changes nothing |
| SetBinding.BindIconsAt | src/IconV2.ts:55-62 | the inner loop touches only the ids it lists, and each gains the name once |
| SetBinding.BindListing | src/icons/v3.ts:246-258 | an id's list is its sets' names with repeats dropped |
| SetBinding.BindDomain | src/icons/v3.ts:246-258 | the binding holds an id exactly when some set lists it |
| SetBinding.DedupProperties | src/icons/v3.js:296-308 | dropping repeats leaves each name once, exactly the listed names, in first-seen order |
| SetBinding.DedupDistinct | src/icons/v3.js:296-308 | after dropping repeats no name appears twice |
| SetBinding.DedupMembers | src/icons/v3.js:296-308 | a name is kept exactly when it was listed |
| SetBinding.DedupOrder | src/icons/v3.js:296-308 | the kept names are listed names, ordered by where each first appeared |
| SetBinding.FirstIndexPrefix | src/icons/v3.ts:256 | appending does not move an earlier name's first occurrence |
| SetBinding.FirstIndexLast | src/icons/v3.ts:256 | a new name's first occurrence is where it was appended |
| SetBinding.BindingProperties | src/IconV2.ts:53-68 | each id's names are distinct, first-seen ordered, exactly the names of the sets listing it, and `[]` for an id in no set |
| IconV2.ChunkSize | src/IconV2.ts:138-141 | the size test `push >= maxLength` behaves as a size of at least 1 |
| IconV2.Chunks | src/IconV2.ts:134-148 | the yielded chunks concatenate to the entries with `imagePath`, in order; all but the last are full; the last is non-empty and at most full |
| IconV2.FilterStep | src/IconV2.ts:136-137 | one more source entry grows the filtered prefix exactly when it has `imagePath` |
| IconV2.FlattenAppend | src/IconV2.ts:140 | yielding a chunk appends its entries to the concatenation |
| IconV2.TransformShape | src/IconV2.ts:110-123 | `transformRiotEntery` gives an object with unique keys, no `imagePath`, and descriptions and rarities re-keyed by region |
| IconV2.TransformKeeps | src/IconV2.ts:110-123 | every other field keeps its value |
| IconV2.Rekeyed | src/IconV2.ts:120-122 | the spread sets the two re-keyed fields and keeps the others |
| IconV2.TransformDescriptions | src/IconV2.ts:113-119 | a region's description is the rest of the last item of that region |
| IconV2.ApplyWritesUntouched | src/IconV2.ts:125-132 | an id no write names keeps its entry |
| IconV2.ApplyWritesLast | src/IconV2.ts:125-132 | an id holds the digest of the last write naming it |
| IconV2.ProcessChunk | src/IconV2.ts:125-132 | `processChunk` sets each entry's data digest and leaves the image ledger |
| IconV2.WriteAll | src/IconV2.ts:128-131 | the writes are applied in order to the data ledger only |
| IconV2.ImageDigests | src/IconV2.ts:98-108 | fulfilled results add their ids and rejected ones add nothing |
| IconV2.LastFulfilled | src/IconV2.ts:99-103 | the position of the last fulfilled result for an id, or none when no result fulfilled it |
| IconV2.ImageDigestsLast | src/IconV2.ts:98-108 | each digest left is the hash of the last fulfilled result for its id, and an id no result fulfilled keeps its old digest |
| IconV2.ProcessImages | src/IconV2.ts:98-108 | `processImages` sets the image digests of the fulfilled results and leaves the data ledger |
| IconV2.Classify | src/IconV2.ts:274-289 | per namespace: new when no digest is stored, changed when it differs, unchanged when equal |
| IconV2.ImageMime | src/IconV2.ts:267 | the MIME type is missing exactly when the entry has no `image` |
| IconV2.Send | src/IconV2.ts:150-193 | an upload is logged; a reply the helper does not accept throws |
| IconV2.ImagePass | src/IconV2.ts:270-291 | the image block uploads a new image (with the template) or a changed one, never an unchanged one, then records the fresh digest and counts the upload |
| IconV2.DataPass | src/IconV2.ts:292-312 | the data block uploads a new or changed page, never an unchanged one, then records the fresh digest and counts the upload |
| IconV2.RunSync | src/IconV2.ts:263-321 | the loop over `oldLock`, in place, computes the sync function, with the three cases, the counter, the checkpoints and the final save |
| IconV2.RunEntry | src/IconV2.ts:265-319 | the loop body computes one step |
| IconV2.RunImage | src/IconV2.ts:270-291 | the image block computes the image pass |
| IconV2.RunData | src/IconV2.ts:292-312 | the data block computes the data pass |
| IconV2.StepUpdates | src/IconV2.ts:265-319 | after an entry goes through, both namespaces hold the fresh digests for its id and no other id changes; an entry without `imagePath` changes nothing |
| IconV2.StepUnreachable | src/IconV2.ts:265-312 | a missing MIME type or a missing fresh digest is the `unreachable` error, and nothing else is |
| IconV2.PathIdsCons | src/IconV2.ts:266 | the ids with `imagePath`, unfolded one entry at a time |
| IconV2.SyncRefreshes | src/IconV2.ts:263-321 | a finished run leaves every listed id with its fresh digests and every other id as it was |
| IconV2.SyncRefusal | src/IconV2.ts:263-321 | a refused upload is the last thing sent, and its reply is one the helper does not accept |
| IconV2.StepRefusal | src/IconV2.ts:265-319 | within one entry, a refused upload is the last thing sent |
| IconV2.CountAppend | src/IconV2.ts:314-317 | logging an upload counts one upload, and logging a save counts one save |
| IconV2.StepCounts | src/IconV2.ts:265-319 | an entry moves the counter by its uploads (at most 2) and saves exactly when due |
| IconV2.CorrectedCheckpoints | src/IconV2.ts:314-317 | under the corrected rule the counter tracks the uploads, and a finished run saves once per hundred the counter passed, then once at the end |
| IconV2.CorrectedQuietEntry | src/IconV2.ts:314-317 | under the corrected rule an entry that uploads nothing never saves |
| IconV2.AsWrittenSkipsCheckpoints | src/IconV2.ts:314-317 | as written, entries new in both namespaces keep the counter odd, so only the final save happens |
| IconV2.AsWrittenFreshStep | src/IconV2.ts:265-319 | as written, one new entry makes two uploads, keeps the counter odd and saves nothing |
| IconV2.FreshEntryStep | src/IconV2.ts:265-319 | an entry new in both namespaces records both fresh digests and moves the counter by two |
| IconV2.AsWrittenFiftyNewIcons | src/IconV2.ts:263-321 | as written, fifty new icons from `i = 1` make a hundred uploads and one save |
| IconV2.AsWrittenRepeatsCheckpoint | src/IconV2.ts:314-317 | as written, at a counter that is a multiple of 100, an unchanged entry saves the ledger again |
| IconsV3.Passes | src/icons/v3.js:200-211 | every retry loop makes at least one call |
| IconsV3.RetryProperties | src/icons/v3.ts:170-180 | a retry loop makes between one and its limit of calls, all the same; earlier replies were `readonly`; it stops early only on a reply that is not `readonly`; the result is the last reply |
| IconsV3.RetryReadOnlyWiki | src/icons/v3.ts:171-177 | against a wiki that stays read-only, a retry loop uses every pass |
| IconsV3.ReadOnlyPasses | src/icons/v3.js:204-209 | against a wiki that stays read-only, the TypeScript loops call twice and the JavaScript do-while loops three times |
| IconsV3.EditOutcome | src/icons/v3.ts:193-203 | an error or an edit that is not `Success` throws; anything else goes through |
| IconsV3.NoChangeIsSuccess | src/icons/v3.js:229-239 | a `nochange` edit that succeeded is not an error |
| IconsV3.ClassifyData | src/icons/v3.ts:70-87 | data is new when the wiki has no page, changed when the page is not `deepEqual`, unchanged otherwise |
| IconsV3.DataWriteCases | src/icons/v3.ts:70-87 | a page absent from the wiki is created, a differing one updated, an equal one not written |
| IconsV3.ProcessRawIconEntry | src/icons/v3.ts:283-298 | drops `imagePath`, re-keys descriptions and rarities by region, sets `sets` to the binding (or `[]`) and `image` to `{mime}`, and keeps every other field |
| IconsV3.Strip | src/icons/v3.ts:284 | the rest pattern drops the three keys and keeps the others |
| IconsV3.Extend | src/icons/v3.ts:286-297 | `Object.assign` sets the four fields and keeps the others |
| IconsV3.QueueSet | src/icons/v3.ts:66 | `Map.set` keeps a known id's place and appends a new one |
| IconsV3.QueueDeleteAbsent | src/icons/v3.ts:166 | deleting an absent id changes nothing |
| IconsV3.QueueDeleteHead | src/icons/v3.ts:166 | deleting the oldest id removes just the head |
| IconsV3.FirstUnknown | src/icons/v3.ts:98-100 | the first image whose MIME type has no extension |
| IconsV3.SelectProperties | src/icons/v3.ts:94-103 | the batch is the first `min(50, size)` images in insertion order, each named `Profile-Icons-V1-<id>.<ext>`; an unknown MIME type throws |
| IconsV3.TitlesFileNames | src/icons/v3.ts:105-116 | `title.substring(5)` of each title asked for is that image's file name, so the lookup at line 116 finds it; images with different file names are asked for under different titles |
| IconsV3.LastPage | src/icons/v3.ts:110-113 | the last present page for a file name |
| IconsV3.IntegrityLookup | src/icons/v3.ts:110-113 | a file name has a hash exactly when some page for it is present, that of the last one |
| IconsV3.ClassifyImage | src/icons/v3.ts:118-163 | an image is missing, outdated or fine against the wiki's SHA-1 |
| IconsV3.Tolerate | src/icons/v3.ts:118-158 | the script goes on after any reply but an error, and after `fileexists-no-change` |
| IconsV3.CheckSlotFine | src/icons/v3.ts:159-163 | a fine image sends nothing |
| IconsV3.CheckSlotOutdated | src/icons/v3.ts:147-158 | an outdated image sends forced uploads of itself only |
| IconsV3.CheckSlotMissing | src/icons/v3.ts:118-146 | a missing image sends unforced uploads, then forced ones exactly when the only warning was `duplicate` |
| IconsV3.CheckSlotLog | src/icons/v3.ts:118-164 | checking an image only adds calls |
| IconsV3.NoChangeTolerated | src/icons/v3.js:142-188 | `fileexists-no-change` on a missing file's upload does not stop the script |
| IconsV3.CheckImagesBatch | src/icons/v3.ts:93-168 | once selected, exactly the batch leaves the queue, and the first call asks for its titles |
| IconsV3.CheckImagesMime | src/icons/v3.ts:98-100 | an unknown MIME type throws before the queue is touched |
| IconsV3.CheckSlotsLog | src/icons/v3.ts:117-165 | the image checks only add calls |
| IconsV3.EntryStepQueue | src/icons/v3.ts:88-90 | an entry keeps the queue under 50 distinct ids, since the 50th image triggers a check that empties it |
| IconsV3.RunEmptiesQueue | src/icons/v3.ts:300-312 | a main block that finishes leaves no image unchecked, thanks to the last `checkImages` |
| IconsV3.RunEmpties | src/icons/v3.ts:300-312 | the same for the listing as fetched, whose entries with `imagePath` are the ones run |
| IconsV3.EntryStepQuiet | src/icons/v3.ts:60-90 | an entry (in either build's block) that leaves fewer than 50 images queued only adds its icon to the queue |
| IconsV3.QueueSetIds | src/icons/v3.ts:66 | `Map.set` grows the queue by at most one id, and the new id and every id already queued are in it |
| IconsV3.PassQueueOk | src/icons/v3.js:378-390 | the JavaScript second block keeps the queue under 50 distinct ids |
| IconsV3.PassKeepsQueued | src/icons/v3.js:378-390 | while the queue stays under 50, the second block checks nothing, so every id queued before it or by it is still queued at the end |
| IconsV3.PassLeavesQueued | src/icons/v3.js:378-390 | a second block over fewer than 50 entries, from an empty queue, ends with all their ids still queued |
| IconsV3.ListedIdsQueued | src/icons/v3.js:37 | the ids of the jobs are those of every listed entry with `imagePath` |
| IconsV3.ScriptJavaScript | src/icons/v3.js:364-390 | the JavaScript script is the main block and, if it finishes, the second block over the same filtered listing |
| IconsV3.TypeScriptScriptEmpties | src/icons/v3.ts:300-312 | the TypeScript script is its main block alone, and leaves nothing unchecked when it finishes |
| IconsV3.ScriptQueueOk | src/icons/v3.js:364-390 | in either build, a finished script leaves fewer than 50 distinct ids queued |
| IconsV3.JavaScriptLeavesUnchecked | src/icons/v3.js:378-390 | in the JavaScript build, with fewer than 50 icons that have images, a finished script leaves every one of them queued and unchecked, because the second block has no closing `checkImages` |
| IconsV3.WithImagePathEntries | src/icons/v3.ts:22 | the entries with `imagePath` keep the entry shape |
| IconsV3.SelectStep | src/icons/v3.js:117-127 | one pass of the selection loop |
| IconsV3.PrefixedEmpty | src/icons/v3.ts:94-103 | an empty selection prefix adds nothing |
| IconsV3.PrefixedStep | src/icons/v3.ts:94-103 | extending the selection prefix by one slot |
| IconsV3.IconSync.constructor | src/icons/v3.ts:45 | the script starts with an empty queue and no calls |
| IconsV3.IconSync.Call | src/icons/v3.ts:170-180 | a call is logged and answered by the client |
| IconsV3.IconSync.RetryWhile | src/icons/v3.ts:171-177 | the `while (attemptsLimit-- > 0)` loop from 2 is the two-pass retry |
| IconsV3.IconSync.RetryDoWhile | src/icons/v3.js:204-209 | the do-while loop from 2 is the three-pass retry |
| IconsV3.IconSync.Retrying | src/icons/v3.js:200-211 | each build uses its own retry loop |
| IconsV3.IconSync.WriteData | src/icons/v3.ts:182-231 | the write is `uploadData`, `updateData` or none, as the data case says |
| IconsV3.SelectSlice | src/icons/v3.ts:94-103 | the selection loop with `max-- <= 0` computes the batch |
| IconsV3.IconSync.CheckSlice | src/icons/v3.ts:117-165 | the second loop checks each selected image in order |
| IconsV3.IconSync.CheckOne | src/icons/v3.ts:118-164 | one image of the second loop |
| IconsV3.IconSync.DeleteSlice | src/icons/v3.ts:103 | deleting the batch drops exactly the oldest images |
| IconsV3.IconSync.CheckQueue | src/icons/v3.ts:93-168 | `checkImages` on the queue in place |
| IconsV3.IconSync.ProcessIconEntry | src/icons/v3.ts:59-91 | `processIconEntry` queues the icon, writes the page if needed and checks a batch at 50 |
| IconsV3.IconSync.RunAll | src/icons/v3.ts:300-312 | the main block runs every entry in order, then a last `checkImages` |
| IconsV3.IconSync.RunAgain | src/icons/v3.js:378-390 | the second block runs `processIconEntry` on every entry in order, with no `checkImages` after it |
| IconsV3.IconSync.RunScript | src/icons/v3.js:364-390 | the whole script: the main block and, in the JavaScript build, the second block |

## Left out

- Network I/O is left out, because it is outside the program: `fetch`, the cookie agent, the `FormData` wire format and the MediaWiki response shapes. The wiki's reply is a parameter instead: `Wiki.Server` for the clients, `IconsV3.Remote` for v3 and `respond` for IconV2. Replies keep only the fields the callers inspect.
- `getIcon` and `getCurentIconData` in v3 are a `Fetch` parameter, since they are fetches. A 404 is `None`.
- The `oldLock` fetch in IconV2 is left out. Reading its chunks back is `PNGLock.FromBuffer`.
- The PNG chunk libraries, CRCs, `tEXt` framing, base64 and reading `source.png` are taken as bijections. A chunk carries its name, keyword and payload, and the template chunk list is a parameter.
- MD5 and SHA-1 are left out. They are a function parameter (`md5`) or given digests (`Icon.sha1`, `lock`).
- `JSON.stringify` of a v3 page is left out. A page carries its JSON value.
- Timers, promises and intervals are left out. The 60000/39 ms and `minTime` delays are not time; a tick is an explicit `ProcessEntry`/`ProcessQueue` call, and the timer handle is a flag. An awaited client call returns as soon as `processQueue` has sent its request: timeouts that fire while the `fetch` is in flight, and so the other callers' requests sent then, are not modelled. The client runs one caller at a time.
- `getIcon` throws when the image fetch is not `ok` (src/icons/v3.ts:263, src/icons/v3.js:317), and `getCurentIconData` throws on any failed fetch other than a 404 (src/icons/v3.ts:279, src/icons/v3.js:337). These throws are not modelled: `Fetch` always yields an image and a page or `None`.
- RateLimiter.Limiter.ProcessEntry: forwarding to the entry's own `resolve`/`reject` is left out, because promise settlement is not modelled. Running `fn` is recorded in the `dispatched` log instead.
- Concurrency is left out, because its point is parallelism: `Promise.all` over batches of 3 in v3, the `Promise.race` pool in `src/icons/v3.js`, `Promise.allSettled` in IconV2's `getImages` (its settled results are a parameter of `ProcessImages`), and `Promise.all` over chunks. Entries are handled sequentially.
- The `Promise.race` pool of the JavaScript second block (src/icons/v3.js:378-390) is a sequential pass, `IconsV3.PassFrom`. Its fetches are a second `Fetch` parameter, `again`, because the pages fetched then can differ from those of the main block, which has written to the wiki in between.
- IconV2 calls `uploadFile_` and `updateOrCreatePage_`, which `src/Client.ts` does not define. Their replies are modelled by the `Accepted` predicate on the reply shapes the driver inspects. The client's queue and retries are not composed into this driver.
- IconV2's `uploadImage` re-checks that the fetched MIME type is unchanged. This is left out because it depends on a second fetch.
- `process.exit` when everything is up to date is left out, because it depends on a remote SHA-1.
- Logging in at the top of IconV2 and v3 is left out; their `throw`s are glue around `Client.LogIn`, which is modelled.
- `saveLock` is logged as one ledger upload of both maps, and its encoding is `PNGLock.ToBuffer`. A refused save throws, like any refused upload (src/IconV2.ts:199-205; `IconV2.Send`, `IconV2.SyncRefusal`).
- Ledger ids, and the `id` of a Riot entry, are non-negative integers (`nat`), as Riot's icon ids are. The source types them as `id: number` (src/type.d.ts:10, 30, 52), and `writeUInt32LE` (src/PNGLock.ts:31) throws a `RangeError` on a negative or fractional id as well as on one of 2^32 or more. Those ids, and that failure, are not modelled.
- PngLedger.PackLedgerIdsInRange: it states the failure for ids of 2^32 or more only. The `RangeError` for a negative id cannot arise in the model, because ledger keys are `nat`.
- Logging, progress bars, `debugger` and `sleep` are left out, because they have no effect on the data.
- JavaScript lists an object's integer-like keys first, in ascending order. This is left out, because Riot's region codes and the entry fields are not integer-like. The model keeps insertion order, which `for ... in` in `lua` and `deepEqual` follows.
- The prefetch pipeline at src/IconV2.ts:214-225 is modelled only through its parts, `ProcessChunk` and `ProcessImages`, and its ordering is not. `getImages` sets each fetched entry's `image` (src/IconV2.ts:85), and `processChunk` hashes the canonical text, which includes `image` (src/IconV2.ts:127-128). So the order at src/IconV2.ts:216-224, fetch a chunk's images and then hash that chunk, matters. `ProcessChunk` takes entries that already carry `image`, once their images are fetched, and `sets` (src/IconV2.ts:67).
- Stringify.Less: a string is a sequence of Unicode scalar values, and `Less` compares those. `keys.sort()` at src/stringify.ts:80 compares UTF-16 code units, and the two orders differ only where, at the first difference, one key has a character above U+FFFF and the other one between U+E000 and U+FFFF (for example `"\u{1F600}"` sorts before `"\uFF01"` in JavaScript and after it here). Lone surrogates cannot be written at all. This is left out, because the keys sorted are Riot's ASCII region codes and the entry's field names.
- Numbers are integers. The rendering of JavaScript floats and NaN is left out.
- The prototype-chain behaviour of `in` is left out: `key in expected` in `deepEqual` and `mime in MIME_TO_EXT` ignore inherited keys such as `toString`.
- `src/icon.ts`, `src/icondata.js`, `src/Sets.ts`, `src/indexes.ts` and `src/indexes/*` are not part of this model. They are glue scripts, SQLite and schema validation, and their grouping is the same set binding.
- PngLedger.LedgerRoundTrip: it assumes the template holds no `data` or `image` `tEXt` chunk of its own. Otherwise `fromBuffer` would read the template's chunk first.
- MwClientV1.WriteFormTokens: it states the count and the prefix of the form's tokens, not which tokens were appended. MwClientV1.BadTokenTwice shows them for the two-`badtoken` case.

## Findings

| source | as written | input that shows it | evidently intended | confidence | as-written member | corrected member |
|---|---|---|---|---|---|---|
| src/IconV2.ts:314-317 | the ledger is saved when `i % 100 == 0` after an entry, but `i` starts at 1 and an entry new in both namespaces adds 2, so `i` stays odd | fifty icons new to both ledgers: a hundred uploads and only the final save | save whenever the counter passes a multiple of 100 | not executed | IconV2.AsWrittenSkipsCheckpoints | IconV2.CorrectedCheckpoints |
| src/IconV2.ts:314-317 | the test also runs after an entry that uploaded nothing, so at `i == 100` every unchanged entry saves the ledger again | counter at 100, then an entry whose digests both match | save only when the entry's uploads moved the counter past a multiple of 100 | not executed | IconV2.AsWrittenRepeatsCheckpoint | IconV2.CorrectedQuietEntry |
