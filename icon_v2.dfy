/**
 * The driver of `src/IconV2.ts`: it batches the icon listing, fingerprints each entry
 * (the MD5 of the canonical text of the transformed entry, and the MD5 of the image),
 * then walks the listing against the ledger read back from the wiki (`oldLock`),
 * uploading what is new or changed, recording the fresh digests in `oldLock`, and
 * saving the ledger every hundred uploads and once at the end.
 *
 * Hashing is a parameter (`md5`). The wiki's answer to each upload is a parameter too
 * (`respond`): the driver calls `uploadFile_` and `updateOrCreatePage_`, which the
 * client class does not define, so only the reply shapes the driver inspects are kept.
 */
module IconV2 {
  import opened Wrappers
  import opened Json
  import opened Stringify
  import opened PngLedger
  import opened Wiki
  import opened RiotEntry
  import opened SeqFacts

  // ---------------------------------------------------------------- chunks

  /** `buffer.push(entry) >= maxLength`: a push returns at least 1, so 0 behaves as 1. */
  function ChunkSize(maxLength: nat): (n: nat)
    ensures n >= 1 && (maxLength >= 1 ==> n == maxLength)
  {
    if maxLength == 0 then 1 else maxLength
  }

  function Flatten(chunks: seq<seq<Json>>): seq<Json>
    decreases |chunks|
  {
    if chunks == [] then [] else Flatten(chunks[..|chunks| - 1]) + chunks[|chunks| - 1]
  }

  /**
   * `chunks(source, maxLength)`, the yielded chunks collected in order: together they
   * are the entries with `imagePath`, every chunk but the last is full, and the last is
   * non-empty and at most full.
   */
  method Chunks(source: seq<Json>, maxLength: nat) returns (chunks: seq<seq<Json>>)
    ensures Flatten(chunks) == WithImagePath(source)
    ensures forall i :: 0 <= i < |chunks| - 1 ==> |chunks[i]| == ChunkSize(maxLength)
    ensures chunks != [] ==> 0 < |chunks[|chunks| - 1]| <= ChunkSize(maxLength)
  {
    chunks := [];
    var buffer: seq<Json> := [];
    for k := 0 to |source|
      invariant Flatten(chunks) + buffer == WithImagePath(source[..k])
      invariant forall i :: 0 <= i < |chunks| ==> |chunks[i]| == ChunkSize(maxLength)
      invariant |buffer| < ChunkSize(maxLength)
    {
      var entry := source[k];
      FilterStep(source, k, Flatten(chunks), buffer);
      if HasImagePath(entry) {
        buffer := buffer + [entry];
        if |buffer| >= maxLength {
          FlushFull(chunks, buffer, ChunkSize(maxLength));
          chunks := chunks + [buffer];
          buffer := [];
        }
      }
    }
    assert source[..|source|] == source;
    if |buffer| > 0 {
      FlattenAppend(chunks, buffer);
      chunks := chunks + [buffer];
    } else {
      assert Flatten(chunks) + buffer == Flatten(chunks);
    }
  }

  /** Flushing a full buffer keeps every chunk full and the flattened entries in order. */
  lemma FlushFull(chunks: seq<seq<Json>>, buffer: seq<Json>, n: nat)
    requires |buffer| == n && forall i :: 0 <= i < |chunks| ==> |chunks[i]| == n
    ensures Flatten(chunks + [buffer]) == Flatten(chunks) + buffer
    ensures forall i :: 0 <= i < |chunks + [buffer]| ==> |(chunks + [buffer])[i]| == n
  {
    FlattenAppend(chunks, buffer);
  }

  lemma FlattenAppend(chunks: seq<seq<Json>>, buffer: seq<Json>)
    ensures Flatten(chunks + [buffer]) == Flatten(chunks) + buffer
  {
    assert (chunks + [buffer])[..|chunks|] == chunks;
  }

  /** One more entry of the source: the filtered prefix grows by it exactly when it has `imagePath`. */
  lemma FilterStep(source: seq<Json>, k: nat, done: seq<Json>, buffer: seq<Json>)
    requires k < |source| && done + buffer == WithImagePath(source[..k])
    ensures HasImagePath(source[k]) ==> done + (buffer + [source[k]]) == WithImagePath(source[..k + 1])
    ensures !HasImagePath(source[k]) ==> done + buffer == WithImagePath(source[..k + 1])
  {
    assert source[..k + 1][..k] == source[..k];
    AppendAssoc(done, buffer, [source[k]]);
  }

  // ---------------------------------------------------------------- transformRiotEntery

  /**
   * `transformRiotEntery(entry)`: `imagePath` dropped, `descriptions` and `rarities`
   * re-keyed by region in place, every other field as it was.
   */
  function Transform(e: Json): Json
    requires IsEntry(e)
  {
    var info := Remove(e.members, "imagePath");
    RemoveUnique(e.members, "imagePath");
    JObject(Rekeyed(info, JObject(ByRegion(Descriptions(e))), JObject(ByRegion(Rarities(e)))))
  }

  /** The transformed entry is an object with unique keys, no `imagePath`, and the re-keyed lists. */
  lemma TransformShape(e: Json)
    requires IsEntry(e)
    ensures var r := Transform(e);
      && r.JObject? && UniqueKeys(r.members)
      && Lookup(r.members, "imagePath") == None
      && Lookup(r.members, "descriptions") == Some(JObject(ByRegion(Descriptions(e))))
      && Lookup(r.members, "rarities") == Some(JObject(ByRegion(Rarities(e))))
  {
    RemoveUnique(e.members, "imagePath");
  }

  /** Every other field keeps its value. */
  lemma TransformKeeps(e: Json, k: string)
    requires IsEntry(e) && k != "imagePath" && k != "descriptions" && k != "rarities"
    ensures Lookup(Transform(e).members, k) == Lookup(e.members, k)
  {
    RemoveUnique(e.members, "imagePath");
  }

  /** `{ ...info, descriptions, rarities }`. */
  function Rekeyed(info: Members, descriptions: Json, rarities: Json): (r: Members)
    requires UniqueKeys(info)
    ensures UniqueKeys(r)
    ensures Lookup(r, "descriptions") == Some(descriptions) && Lookup(r, "rarities") == Some(rarities)
    ensures forall k :: k != "descriptions" && k != "rarities" ==> Lookup(r, k) == Lookup(info, k)
  {
    var withDescriptions := Assign(info, "descriptions", descriptions);
    AssignUnique(info, "descriptions", descriptions);
    AssignUnique(withDescriptions, "rarities", rarities);
    Assign(withDescriptions, "rarities", rarities)
  }

  /** The re-keyed descriptions: a region's value is the rest of its last item. */
  lemma TransformDescriptions(e: Json, region: string)
    requires IsEntry(e)
    ensures var d := Lookup(Transform(e).members, "descriptions").value.members;
      Lookup(d, region) == match LastOfRegion(Descriptions(e), region)
        case None => None
        case Some(i) => Some(Props(Descriptions(e)[i]))
  {
    TransformShape(e);
    ByRegionLookup(Descriptions(e), region);
  }

  /** The entry's text on the wiki: `return ` and the Lua table with four-space indentation. */
  function PageText(e: Json): string
    requires IsEntry(e)
  {
    "return " + Lua(Transform(e), 4)
  }

  // ---------------------------------------------------------------- fingerprints

  /** An entry's data digest. */
  function DataDigest(e: Json, md5: string -> string): string
    requires IsEntry(e)
  {
    md5(Canonical(Transform(e)))
  }

  /** The chunk as the writes `processChunk` makes: an id and the digest it gets. */
  function DigestWrites(chunk: seq<Json>, md5: string -> string): (w: seq<(nat, string)>)
    requires forall i :: 0 <= i < |chunk| ==> IsEntry(chunk[i])
    ensures |w| == |chunk|
    ensures forall i :: 0 <= i < |chunk| ==> w[i] == (Id(chunk[i]), DataDigest(chunk[i], md5))
  {
    seq(|chunk|, i requires 0 <= i < |chunk| => (Id(chunk[i]), DataDigest(chunk[i], md5)))
  }

  /** The writes applied to a ledger in order. */
  function ApplyWrites(m: Ledger, writes: seq<(nat, string)>): Ledger
    decreases |writes|
  {
    if writes == [] then m
    else
      var (id, digest) := writes[|writes| - 1];
      ApplyWrites(m, writes[..|writes| - 1])[id := digest]
  }

  /** `lock.data` after `processChunk`: each entry's id mapped to the digest of its canonical text. */
  function DataDigests(m: Ledger, chunk: seq<Json>, md5: string -> string): Ledger
    requires forall i :: 0 <= i < |chunk| ==> IsEntry(chunk[i])
  {
    ApplyWrites(m, DigestWrites(chunk, md5))
  }

  /** An id no write names keeps what it had. */
  lemma {:induction false} ApplyWritesUntouched(m: Ledger, writes: seq<(nat, string)>, id: nat)
    requires forall i :: 0 <= i < |writes| ==> writes[i].0 != id
    ensures id in ApplyWrites(m, writes) <==> id in m
    ensures id in m ==> ApplyWrites(m, writes)[id] == m[id]
    decreases |writes|
  {
    if writes != [] {
      var init := writes[..|writes| - 1];
      assert forall j :: 0 <= j < |init| ==> init[j] == writes[j];
      ApplyWritesUntouched(m, init, id);
    }
  }

  /** An id holds the digest of the last write naming it. */
  lemma {:induction false} ApplyWritesLast(m: Ledger, writes: seq<(nat, string)>, i: nat)
    requires i < |writes|
    requires forall j :: i < j < |writes| ==> writes[j].0 != writes[i].0
    ensures writes[i].0 in ApplyWrites(m, writes) && ApplyWrites(m, writes)[writes[i].0] == writes[i].1
    decreases |writes|
  {
    if i < |writes| - 1 {
      var init := writes[..|writes| - 1];
      assert forall j :: 0 <= j < |init| ==> init[j] == writes[j];
      ApplyWritesLast(m, init, i);
    }
  }

  /** `processChunk(chunk, lock)`: one write per entry, in order. */
  method ProcessChunk(chunk: seq<Json>, lock: PNGLock, md5: string -> string)
    requires forall i :: 0 <= i < |chunk| ==> IsEntry(chunk[i])
    modifies lock
    ensures lock.data == DataDigests(old(lock.data), chunk, md5)
    ensures lock.image == old(lock.image)
  {
    var writes := DigestWrites(chunk, md5);
    WriteAll(lock, writes);
  }

  /** `lock.data[id] = digest` for each write, in order. */
  method WriteAll(lock: PNGLock, writes: seq<(nat, string)>)
    modifies lock
    ensures lock.data == ApplyWrites(old(lock.data), writes)
    ensures lock.image == old(lock.image)
  {
    for k := 0 to |writes|
      invariant lock.data == ApplyWrites(old(lock.data), writes[..k])
      invariant lock.image == old(lock.image)
    {
      assert writes[..k + 1][..k] == writes[..k];
      var (id, digest) := writes[k];
      lock.data := lock.data[id := digest];
    }
    assert writes[..|writes|] == writes;
  }

  /** One outcome of `getImages`: the image digest of an id, or a rejection. */
  datatype Settled = Fulfilled(id: nat, hash: string) | Rejected

  function ImageDigests(m: Ledger, results: seq<Settled>): (r: Ledger)
    ensures forall id :: id in r <==> id in m || Fulfilled(id, "") in Placeholders(results)
    decreases |results|
  {
    if results == [] then m
    else
      var s := results[|results| - 1];
      var init := results[..|results| - 1];
      assert forall j :: 0 <= j < |init| ==> init[j] == results[j];
      var r := ImageDigests(m, init);
      if s.Fulfilled? then r[s.id := s.hash] else r
  }

  /** Where the last fulfilled result for `id` sits, if there is one. */
  function LastFulfilled(results: seq<Settled>, id: nat): (k: Option<nat>)
    ensures k.Some? ==> k.value < |results| && results[k.value].Fulfilled? && results[k.value].id == id
    ensures k.Some? ==> forall j :: k.value < j < |results| ==> !(results[j].Fulfilled? && results[j].id == id)
    ensures k.None? ==> forall j :: 0 <= j < |results| ==> !(results[j].Fulfilled? && results[j].id == id)
    decreases |results|
  {
    if results == [] then None
    else if results[|results| - 1].Fulfilled? && results[|results| - 1].id == id then Some(|results| - 1)
    else LastFulfilled(results[..|results| - 1], id)
  }

  /**
   * Each digest `processImages` leaves is the hash of the last fulfilled result for its
   * id, since a later `set` overwrites an earlier one; ids that no result fulfilled keep
   * the digest they had.
   */
  lemma {:induction false} ImageDigestsLast(m: Ledger, results: seq<Settled>, id: nat)
    requires id in ImageDigests(m, results)
    ensures match LastFulfilled(results, id)
      case Some(k) => ImageDigests(m, results)[id] == results[k].hash
      case None => id in m && ImageDigests(m, results)[id] == m[id]
    decreases |results|
  {
    if results != [] {
      var s := results[|results| - 1];
      var init := results[..|results| - 1];
      if !(s.Fulfilled? && s.id == id) {
        ImageDigestsLast(m, init, id);
      }
    }
  }

  /** The fulfilled ids; hashes blanked. */
  function Placeholders(results: seq<Settled>): (r: set<Settled>)
    ensures forall id :: Fulfilled(id, "") in r <==> exists i :: 0 <= i < |results| && results[i].Fulfilled? && results[i].id == id
  {
    set i | 0 <= i < |results| && results[i].Fulfilled? :: Fulfilled(results[i].id, "")
  }

  /** `processImages(results, lock)`: fulfilled results set `lock.image`; rejected ones are skipped. */
  method ProcessImages(results: seq<Settled>, lock: PNGLock)
    modifies lock
    ensures lock.image == ImageDigests(old(lock.image), results)
    ensures lock.data == old(lock.data)
  {
    for k := 0 to |results|
      invariant lock.image == ImageDigests(old(lock.image), results[..k])
      invariant lock.data == old(lock.data)
    {
      assert results[..k + 1][..k] == results[..k];
      if results[k].Fulfilled? {
        lock.image := lock.image[results[k].id := results[k].hash];
      }
    }
    assert results[..|results|] == results;
  }

  // ---------------------------------------------------------------- the update loop

  /** What the loop asks the wiki for. */
  datatype Upload =
    | ImageUpload(id: nat, mime: string, withTemplate: bool) // uploadImage(id, mime, true[, IMAGE_TEMPLATE])
    | PageUpload(id: nat, text: string)                      // uploadPage(id, entry)
    | LockUpload(data: Ledger, image: Ledger)                // saveLock(oldLock)

  /** The reply an upload helper returns from without throwing. */
  predicate Accepted(u: Upload, r: Reply) {
    match u
    case ImageUpload(_, _, _) =>
      (r.ErrorReply? && r.code == "fileexists-no-change") || (r.UploadReply? && r.result == "Success")
    case PageUpload(_, _) => r.EditReply? && r.result == "Success"
    case LockUpload(_, _) => r.UploadReply? && r.result == "Success"
  }

  datatype Failure = Unreachable | Refused(upload: Upload, reply: Reply)

  /** The loop's state: `oldLock`'s two maps, the counter `i`, and the uploads sent so far. */
  datatype Progress = Progress(data: Ledger, image: Ledger, counter: nat, log: seq<Upload>)

  /** The digests just computed (`lock`): the loop's reference. */
  datatype Digests = Digests(data: Ledger, image: Ledger)

  datatype Case = New | Changed | Unchanged

  /** The three cases of one namespace: no stored digest, a different one, the same one. */
  function Classify(stored: Ledger, id: nat, digest: string): (c: Case)
    ensures c == New <==> id !in stored
    ensures c == Changed <==> id in stored && stored[id] != digest
    ensures c == Unchanged <==> id in stored && stored[id] == digest
  {
    if id !in stored then New else if stored[id] != digest then Changed else Unchanged
  }

  /** The image MIME type; the entry's type makes `image`, when present, an object with a string `mime`. */
  predicate ImageShape(e: Json) {
    e.JObject? &&
    (Lookup(e.members, "image").None? ||
     (Lookup(e.members, "image").value.JObject? &&
      Lookup(Lookup(e.members, "image").value.members, "mime").Some? &&
      Lookup(Lookup(e.members, "image").value.members, "mime").value.JString?))
  }

  function ImageMime(e: Json): (m: Option<string>)
    requires ImageShape(e)
    ensures m.None? <==> Lookup(e.members, "image").None?
  {
    var img := Lookup(e.members, "image");
    if img.None? then None else Some(Lookup(img.value.members, "mime").value.str)
  }

  predicate SyncEntry(e: Json) {
    IsEntry(e) && ImageShape(e)
  }

  /** What the loop reads of an entry: its id, whether it has `imagePath`, its MIME type, its page text. */
  datatype Item = Item(id: nat, hasImagePath: bool, mime: Option<string>, page: string)

  function ItemOf(e: Json): (it: Item)
    requires SyncEntry(e)
  {
    Item(Id(e), HasImagePath(e), ImageMime(e), PageText(e))
  }

  function Items(entries: seq<Json>): (items: seq<Item>)
    requires forall i :: 0 <= i < |entries| ==> SyncEntry(entries[i])
    ensures |items| == |entries| && forall i :: 0 <= i < |entries| ==> items[i] == ItemOf(entries[i])
  {
    seq(|entries|, i requires 0 <= i < |entries| => ItemOf(entries[i]))
  }

  /** Send one upload; a reply the helper does not accept throws. */
  function Send(p: Progress, u: Upload, respond: Upload -> Reply): (r: (Result<(), Failure>, Progress))
    ensures r.1 == p.(log := p.log + [u])
    ensures r.0.Ok? <==> Accepted(u, respond(u))
    ensures r.0.Err? ==> r.0.error == Refused(u, respond(u))
  {
    var p' := p.(log := p.log + [u]);
    if Accepted(u, respond(u)) then (Ok(()), p') else (Err(Refused(u, respond(u))), p')
  }

  /** The image block for one id: upload when new (with the page template) or changed, then record the digest. */
  function ImagePass(p: Progress, id: nat, mime: string, digest: string, respond: Upload -> Reply): (r: (Result<(), Failure>, Progress))
    ensures var c := Classify(p.image, id, digest);
      && r.1.log == p.log + (if c == Unchanged then [] else [ImageUpload(id, mime, c == New)])
      && r.1.data == p.data
      && (r.0.Ok? ==> r.1.image == p.image[id := digest] && r.1.counter == p.counter + (if c == Unchanged then 0 else 1))
      && (r.0.Err? ==> c != Unchanged && r.1.image == p.image && r.1.counter == p.counter)
  {
    match Classify(p.image, id, digest)
    case Unchanged => (Ok(()), p)
    case c =>
      var (r, p') := Send(p, ImageUpload(id, mime, c == New), respond);
      if r.Err? then (r, p') else (Ok(()), p'.(image := p'.image[id := digest], counter := p'.counter + 1))
  }

  /** The data block for one entry: upload the page when new or changed, then record the digest. */
  function DataPass(p: Progress, it: Item, digest: string, respond: Upload -> Reply): (r: (Result<(), Failure>, Progress))
    ensures var c := Classify(p.data, it.id, digest);
      && r.1.log == p.log + (if c == Unchanged then [] else [PageUpload(it.id, it.page)])
      && r.1.image == p.image
      && (r.0.Ok? ==> r.1.data == p.data[it.id := digest] && r.1.counter == p.counter + (if c == Unchanged then 0 else 1))
      && (r.0.Err? ==> c != Unchanged && r.1.data == p.data && r.1.counter == p.counter)
  {
    match Classify(p.data, it.id, digest)
    case Unchanged => (Ok(()), p)
    case _ =>
      var (r, p') := Send(p, PageUpload(it.id, it.page), respond);
      if r.Err? then (r, p') else (Ok(()), p'.(data := p'.data[it.id := digest], counter := p'.counter + 1))
  }

  /** When the ledger is saved after an entry that moved the counter from `before` to `after`. */
  datatype Rule = AsWritten | Corrected

  const CHECKPOINT_EVERY: nat := 100

  predicate Due(rule: Rule, before: nat, after: nat) {
    match rule
    case AsWritten => after % CHECKPOINT_EVERY == 0
    case Corrected => before / CHECKPOINT_EVERY < after / CHECKPOINT_EVERY
  }


  /** One pass of the loop body over an entry, against the digests just computed. */
  function Step(p: Progress, it: Item, latest: Digests, respond: Upload -> Reply, rule: Rule): (Result<(), Failure>, Progress) {
    if !it.hasImagePath then (Ok(()), p)
    else if it.mime.None? then (Err(Unreachable), p)
    else if it.id !in latest.image then (Err(Unreachable), p)
    else
      var (r1, p1) := ImagePass(p, it.id, it.mime.value, latest.image[it.id], respond);
      if r1.Err? then (r1, p1)
      else if it.id !in latest.data then (Err(Unreachable), p1)
      else
        var (r2, p2) := DataPass(p1, it, latest.data[it.id], respond);
        if r2.Err? then (r2, p2)
        else if Due(rule, p.counter, p2.counter) then Send(p2, LockUpload(p2.data, p2.image), respond)
        else (Ok(()), p2)
  }

  /** The loop from `p` over the entries, then the final save; a throw ends it with the state at that point. */
  function SyncFrom(p: Progress, items: seq<Item>, latest: Digests, respond: Upload -> Reply, rule: Rule): (Result<(), Failure>, Progress)
    decreases |items|
  {
    if items == [] then Send(p, LockUpload(p.data, p.image), respond)
    else
      var (r, p') := Step(p, items[0], latest, respond, rule);
      if r.Err? then (r, p') else SyncFrom(p', items[1..], latest, respond, rule)
  }

  /** The loop as the program starts it: `i = 1` and nothing sent. */
  function Sync(oldData: Ledger, oldImage: Ledger, entries: seq<Json>, latest: Digests, respond: Upload -> Reply, rule: Rule): (Result<(), Failure>, Progress)
    requires forall i :: 0 <= i < |entries| ==> SyncEntry(entries[i])
  {
    SyncFrom(Progress(oldData, oldImage, 1, []), Items(entries), latest, respond, rule)
  }

  // ---------------------------------------------------------------- the loop, imperative

  /**
   * The loop at lines 263-321, over `oldLock` in place, with the checkpoint rule as a
   * parameter (`AsWritten` is the program's `i % 100 == 0`). It returns the counter and
   * the uploads sent.
   */
  method RunSync(entries: seq<Json>, lock: PNGLock, oldLock: PNGLock, respond: Upload -> Reply, rule: Rule)
    returns (r: Result<(), Failure>, i: nat, sent: seq<Upload>)
    requires forall i :: 0 <= i < |entries| ==> SyncEntry(entries[i])
    requires lock != oldLock
    modifies oldLock
    ensures (r, Progress(oldLock.data, oldLock.image, i, sent)) ==
      Sync(old(oldLock.data), old(oldLock.image), entries, Digests(lock.data, lock.image), respond, rule)
  {
    var items := Items(entries);
    ghost var w0 := SyncFrom(Progress(oldLock.data, oldLock.image, 1, []), items, Digests(lock.data, lock.image), respond, rule);
    i := 1;
    sent := [];
    for k := 0 to |items|
      invariant SyncFrom(Progress(oldLock.data, oldLock.image, i, sent), items[k..], Digests(lock.data, lock.image), respond, rule) == w0
    {
      assert items[k..][1..] == items[k + 1..];
      r, i, sent := RunEntry(items[k], lock, oldLock, respond, rule, i, sent);
      if r.Err? {
        return;
      }
    }
    var u := LockUpload(oldLock.data, oldLock.image);
    sent := sent + [u];
    r := if Accepted(u, respond(u)) then Ok(()) else Err(Refused(u, respond(u)));
  }

  /** The loop body for one entry. */
  method RunEntry(it: Item, lock: PNGLock, oldLock: PNGLock, respond: Upload -> Reply, rule: Rule, i0: nat, sent0: seq<Upload>)
    returns (r: Result<(), Failure>, i: nat, sent: seq<Upload>)
    requires lock != oldLock
    modifies oldLock
    ensures (r, Progress(oldLock.data, oldLock.image, i, sent)) ==
      Step(Progress(old(oldLock.data), old(oldLock.image), i0, sent0), it, Digests(lock.data, lock.image), respond, rule)
  {
    i, sent := i0, sent0;
    r := Ok(());
    if !it.hasImagePath {
      return;
    }
    if it.mime.None? {
      return Err(Unreachable), i, sent;
    }
    var id := it.id;
    if id !in lock.image {
      return Err(Unreachable), i, sent;
    }
    r, i, sent := RunImage(id, it.mime.value, lock.image[id], oldLock, respond, i, sent);
    if r.Err? {
      return;
    }
    if id !in lock.data {
      return Err(Unreachable), i, sent;
    }
    r, i, sent := RunData(it, lock.data[id], oldLock, respond, i, sent);
    if r.Err? {
      return;
    }
    if Due(rule, i0, i) {
      var u := LockUpload(oldLock.data, oldLock.image);
      sent := sent + [u];
      if !Accepted(u, respond(u)) {
        return Err(Refused(u, respond(u))), i, sent;
      }
    }
  }

  /** The image block of the loop body (lines 270-291). */
  method RunImage(id: nat, mime: string, digest: string, oldLock: PNGLock, respond: Upload -> Reply, i0: nat, sent0: seq<Upload>)
    returns (r: Result<(), Failure>, i: nat, sent: seq<Upload>)
    modifies oldLock
    ensures (r, Progress(oldLock.data, oldLock.image, i, sent)) ==
      ImagePass(Progress(old(oldLock.data), old(oldLock.image), i0, sent0), id, mime, digest, respond)
  {
    r, i, sent := Ok(()), i0, sent0;
    if id !in oldLock.image || oldLock.image[id] != digest {
      var u := ImageUpload(id, mime, id !in oldLock.image);
      sent := sent + [u];
      if !Accepted(u, respond(u)) {
        return Err(Refused(u, respond(u))), i, sent;
      }
      oldLock.image := oldLock.image[id := digest];
      i := i + 1;
    }
  }

  /** The data block of the loop body (lines 292-312). */
  method RunData(it: Item, digest: string, oldLock: PNGLock, respond: Upload -> Reply, i0: nat, sent0: seq<Upload>)
    returns (r: Result<(), Failure>, i: nat, sent: seq<Upload>)
    modifies oldLock
    ensures (r, Progress(oldLock.data, oldLock.image, i, sent)) ==
      DataPass(Progress(old(oldLock.data), old(oldLock.image), i0, sent0), it, digest, respond)
  {
    r, i, sent := Ok(()), i0, sent0;
    if it.id !in oldLock.data || oldLock.data[it.id] != digest {
      var u := PageUpload(it.id, it.page);
      sent := sent + [u];
      if !Accepted(u, respond(u)) {
        return Err(Refused(u, respond(u))), i, sent;
      }
      oldLock.data := oldLock.data[it.id := digest];
      i := i + 1;
    }
  }

  // ---------------------------------------------------------------- properties of the loop

  /**
   * One entry with `imagePath` that goes through: each namespace ends holding the
   * fresh digest of the entry's id, whichever of the three cases applied, and no other
   * id changes; an entry without `imagePath` changes nothing.
   */
  lemma StepUpdates(p: Progress, it: Item, latest: Digests, respond: Upload -> Reply, rule: Rule)
    ensures var (r, p') := Step(p, it, latest, respond, rule);
      && (!it.hasImagePath ==> r.Ok? && p' == p)
      && (r.Ok? && it.hasImagePath ==>
           it.id in latest.data && it.id in latest.image &&
           p'.image == p.image[it.id := latest.image[it.id]] &&
           p'.data == p.data[it.id := latest.data[it.id]])
  {
  }

  /** A missing MIME type or a missing fresh digest is the `unreachable` error, and nothing else is. */
  lemma StepUnreachable(p: Progress, it: Item, latest: Digests, respond: Upload -> Reply, rule: Rule)
    ensures Step(p, it, latest, respond, rule).0 == Err(Unreachable) <==>
      it.hasImagePath && (it.mime.None? || it.id !in latest.image ||
        (it.id !in latest.data && ImagePass(p, it.id, it.mime.value, latest.image[it.id], respond).0.Ok?))
  {
  }

  /** The ids of the entries with `imagePath`. */
  function PathIds(items: seq<Item>): set<nat> {
    set i | 0 <= i < |items| && items[i].hasImagePath :: items[i].id
  }

  lemma PathIdsCons(items: seq<Item>)
    requires items != []
    ensures PathIds(items) == PathIds(items[1..]) + (if items[0].hasImagePath then {items[0].id} else {})
  {
    var rest := items[1..];
    forall id | id in PathIds(items)
      ensures id in PathIds(rest) + (if items[0].hasImagePath then {items[0].id} else {})
    {
      var i :| 0 <= i < |items| && items[i].hasImagePath && items[i].id == id;
      if i > 0 {
        assert rest[i - 1] == items[i];
      }
    }
    forall id | id in PathIds(rest)
      ensures id in PathIds(items)
    {
      var i :| 0 <= i < |rest| && rest[i].hasImagePath && rest[i].id == id;
      assert items[i + 1] == rest[i];
    }
  }

  /**
   * A run that finishes: both namespaces hold the fresh digest of every listed id, and
   * the entries of ids not listed are as they were.
   */
  lemma {:induction false} SyncRefreshes(p: Progress, items: seq<Item>, latest: Digests, respond: Upload -> Reply, rule: Rule)
    ensures var (r, p') := SyncFrom(p, items, latest, respond, rule);
      r.Ok? ==>
        && (forall id :: id in PathIds(items) ==> id in latest.data && id in latest.image && id in p'.data && p'.data[id] == latest.data[id] && id in p'.image && p'.image[id] == latest.image[id])
        && (forall id :: id !in PathIds(items) ==> (id in p'.data <==> id in p.data) && (id in p.data ==> p'.data[id] == p.data[id]))
        && (forall id :: id !in PathIds(items) ==> (id in p'.image <==> id in p.image) && (id in p.image ==> p'.image[id] == p.image[id]))
    decreases |items|
  {
    if items != [] {
      var (r, p1) := Step(p, items[0], latest, respond, rule);
      StepUpdates(p, items[0], latest, respond, rule);
      if r.Ok? {
        SyncRefreshes(p1, items[1..], latest, respond, rule);
        PathIdsCons(items);
      }
    }
  }

  /** A refused upload is the last thing sent, and its reply is not one the helper accepts. */
  lemma {:induction false} SyncRefusal(p: Progress, items: seq<Item>, latest: Digests, respond: Upload -> Reply, rule: Rule)
    ensures var (r, p') := SyncFrom(p, items, latest, respond, rule);
      r.Err? && r.error.Refused? ==>
        p'.log != [] && p'.log[|p'.log| - 1] == r.error.upload &&
        r.error.reply == respond(r.error.upload) && !Accepted(r.error.upload, r.error.reply)
    decreases |items|
  {
    if items != [] {
      var (r, p1) := Step(p, items[0], latest, respond, rule);
      if r.Ok? {
        SyncRefusal(p1, items[1..], latest, respond, rule);
      } else {
        StepRefusal(p, items[0], latest, respond, rule);
      }
    }
  }

  /** Within one entry: a refused upload is the last thing sent. */
  lemma StepRefusal(p: Progress, it: Item, latest: Digests, respond: Upload -> Reply, rule: Rule)
    ensures var (r, p') := Step(p, it, latest, respond, rule);
      r.Err? && r.error.Refused? ==>
        p'.log != [] && p'.log[|p'.log| - 1] == r.error.upload &&
        r.error.reply == respond(r.error.upload) && !Accepted(r.error.upload, r.error.reply)
  {
    if it.hasImagePath && it.mime.Some? && it.id in latest.image {
      var (r1, p1) := ImagePass(p, it.id, it.mime.value, latest.image[it.id], respond);
      if r1.Ok? && it.id in latest.data {
        var (r2, p2) := DataPass(p1, it, latest.data[it.id], respond);
      }
    }
  }

  /** Uploads of images and pages; saves of the ledger. */
  function Uploads(log: seq<Upload>): nat
    decreases |log|
  {
    if log == [] then 0
    else Uploads(log[..|log| - 1]) + (if log[|log| - 1].LockUpload? then 0 else 1)
  }

  function Saves(log: seq<Upload>): nat
    decreases |log|
  {
    if log == [] then 0
    else Saves(log[..|log| - 1]) + (if log[|log| - 1].LockUpload? then 1 else 0)
  }

  lemma CountAppend(log: seq<Upload>, u: Upload)
    ensures Uploads(log + [u]) == Uploads(log) + (if u.LockUpload? then 0 else 1)
    ensures Saves(log + [u]) == Saves(log) + (if u.LockUpload? then 1 else 0)
  {
    assert (log + [u])[..|log|] == log;
  }

  /** One entry that goes through moves the counter by its uploads (at most 2) and saves exactly when due. */
  lemma StepCounts(p: Progress, it: Item, latest: Digests, respond: Upload -> Reply, rule: Rule)
    ensures var (r, p') := Step(p, it, latest, respond, rule);
      r.Ok? ==>
        && p.counter <= p'.counter <= p.counter + 2
        && p'.counter - p.counter == Uploads(p'.log) - Uploads(p.log)
        && Saves(p'.log) == Saves(p.log) + (if it.hasImagePath && Due(rule, p.counter, p'.counter) then 1 else 0)
  {
    var (r, p') := Step(p, it, latest, respond, rule);
    if r.Ok? && it.hasImagePath {
      var id := it.id;
      var (r1, p1) := ImagePass(p, id, it.mime.value, latest.image[id], respond);
      var (r2, p2) := DataPass(p1, it, latest.data[id], respond);
      if Classify(p.image, id, latest.image[id]) != Unchanged {
        CountAppend(p.log, ImageUpload(id, it.mime.value, Classify(p.image, id, latest.image[id]) == New));
      }
      if Classify(p1.data, id, latest.data[id]) != Unchanged {
        CountAppend(p1.log, PageUpload(id, it.page));
      }
      if Due(rule, p.counter, p2.counter) {
        CountAppend(p2.log, LockUpload(p2.data, p2.image));
      }
    }
  }

  /**
   * The counter is one more than the number of image and page uploads; under the
   * corrected rule a finished run saves the ledger once per hundred the counter passed,
   * and once at the end.
   */
  lemma {:induction false} CorrectedCheckpoints(p: Progress, items: seq<Item>, latest: Digests, respond: Upload -> Reply)
    ensures var (r, p') := SyncFrom(p, items, latest, respond, Corrected);
      r.Ok? ==>
        && p'.counter - p.counter == Uploads(p'.log) - Uploads(p.log)
        && Saves(p'.log) - Saves(p.log) == p'.counter / CHECKPOINT_EVERY - p.counter / CHECKPOINT_EVERY + 1
    decreases |items|
  {
    if items == [] {
      CountAppend(p.log, LockUpload(p.data, p.image));
    } else {
      var (r, p1) := Step(p, items[0], latest, respond, Corrected);
      StepCounts(p, items[0], latest, respond, Corrected);
      if r.Ok? {
        CorrectedCheckpoints(p1, items[1..], latest, respond);
        if !items[0].hasImagePath {
          assert p1 == p;
        }
      }
    }
  }

  /** Under the corrected rule, an entry that uploads nothing never saves. */
  lemma CorrectedQuietEntry(p: Progress, it: Item, latest: Digests, respond: Upload -> Reply)
    ensures var (r, p') := Step(p, it, latest, respond, Corrected);
      r.Ok? && p'.counter == p.counter ==> p'.log == p.log
  {
  }

  // ---------------------------------------------------------------- the checkpoint as written

  /** An entry with `imagePath`, a MIME type and both digests at hand. */
  predicate Ready(it: Item, latest: Digests) {
    it.hasImagePath && it.mime.Some? && it.id in latest.data && it.id in latest.image
  }

  /**
   * As written, a run of entries that are all new in both namespaces moves the counter
   * by two per entry, from an odd value through odd values only, so `i % 100 == 0` never
   * holds and the only save is the final one.
   */
  lemma {:induction false} AsWrittenSkipsCheckpoints(p: Progress, items: seq<Item>, latest: Digests, respond: Upload -> Reply)
    requires forall i :: 0 <= i < |items| ==> Ready(items[i], latest)
    requires forall i, j :: 0 <= i < j < |items| ==> items[i].id != items[j].id
    requires forall i :: 0 <= i < |items| ==> items[i].id !in p.data && items[i].id !in p.image
    requires forall u :: Accepted(u, respond(u))
    requires p.counter % 2 == 1
    ensures var (r, p') := SyncFrom(p, items, latest, respond, AsWritten);
      r.Ok? && p'.counter == p.counter + 2 * |items| &&
      Uploads(p'.log) == Uploads(p.log) + 2 * |items| && Saves(p'.log) == Saves(p.log) + 1
    decreases |items|
  {
    if items == [] {
      CountAppend(p.log, LockUpload(p.data, p.image));
    } else {
      var p1 := Step(p, items[0], latest, respond, AsWritten).1;
      AsWrittenFreshStep(p, items, latest, respond);
      var rest := items[1..];
      assert forall i :: 0 <= i < |rest| ==> rest[i] == items[i + 1];
      AsWrittenSkipsCheckpoints(p1, rest, latest, respond);
    }
  }

  /** One new entry, as written: two accepted uploads, the counter still odd, no save, the other ids still new. */
  lemma AsWrittenFreshStep(p: Progress, items: seq<Item>, latest: Digests, respond: Upload -> Reply)
    requires items != [] && forall i :: 0 <= i < |items| ==> Ready(items[i], latest)
    requires forall i, j :: 0 <= i < j < |items| ==> items[i].id != items[j].id
    requires forall i :: 0 <= i < |items| ==> items[i].id !in p.data && items[i].id !in p.image
    requires forall u :: Accepted(u, respond(u))
    requires p.counter % 2 == 1
    ensures var (r, p1) := Step(p, items[0], latest, respond, AsWritten);
      && r.Ok? && p1.counter == p.counter + 2 && p1.counter % 2 == 1
      && Uploads(p1.log) == Uploads(p.log) + 2 && Saves(p1.log) == Saves(p.log)
      && forall i :: 1 <= i < |items| ==> items[i].id !in p1.data && items[i].id !in p1.image
  {
    FreshEntryStep(p, items[0], latest, respond);
    forall i | 1 <= i < |items|
      ensures items[i].id != items[0].id
    {
    }
  }

  /** One entry new in both namespaces, as written: both uploads go out, the counter moves by two and nothing is saved. */
  lemma FreshEntryStep(p: Progress, it: Item, latest: Digests, respond: Upload -> Reply)
    requires Ready(it, latest) && it.id !in p.data && it.id !in p.image
    requires forall u :: Accepted(u, respond(u))
    requires p.counter % 2 == 1
    ensures var (r, p1) := Step(p, it, latest, respond, AsWritten);
      && r.Ok? && p1.counter == p.counter + 2 && p1.counter % 2 == 1
      && Uploads(p1.log) == Uploads(p.log) + 2 && Saves(p1.log) == Saves(p.log)
      && p1.data == p.data[it.id := latest.data[it.id]] && p1.image == p.image[it.id := latest.image[it.id]]
  {
    var id := it.id;
    var u1 := ImageUpload(id, it.mime.value, true);
    var q1 := FreshImagePass(p, id, it.mime.value, latest.image[id], respond);
    var u2 := PageUpload(id, it.page);
    var q2 := FreshDataPass(q1, it, latest.data[id], respond);
    assert !Due(AsWritten, p.counter, q2.counter);
    CountAppend(p.log, u1);
    CountAppend(q1.log, u2);
  }

  /** The image block for an id with no stored image digest, when the upload is accepted. */
  lemma FreshImagePass(p: Progress, id: nat, mime: string, digest: string, respond: Upload -> Reply) returns (q: Progress)
    requires id !in p.image && forall u :: Accepted(u, respond(u))
    ensures q == Progress(p.data, p.image[id := digest], p.counter + 1, p.log + [ImageUpload(id, mime, true)])
    ensures ImagePass(p, id, mime, digest, respond) == (Ok(()), q)
  {
    var u := ImageUpload(id, mime, true);
    assert Accepted(u, respond(u));
    q := Progress(p.data, p.image[id := digest], p.counter + 1, p.log + [u]);
  }

  /** The data block for an entry with no stored data digest, when the upload is accepted. */
  lemma FreshDataPass(p: Progress, it: Item, digest: string, respond: Upload -> Reply) returns (q: Progress)
    requires it.id !in p.data && forall u :: Accepted(u, respond(u))
    ensures q == Progress(p.data[it.id := digest], p.image, p.counter + 1, p.log + [PageUpload(it.id, it.page)])
    ensures DataPass(p, it, digest, respond) == (Ok(()), q)
  {
    var u := PageUpload(it.id, it.page);
    assert Accepted(u, respond(u));
    q := Progress(p.data[it.id := digest], p.image, p.counter + 1, p.log + [u]);
  }

  /** The concrete case: fifty new icons from `i = 1` make a hundred uploads and no checkpoint. */
  lemma AsWrittenFiftyNewIcons(oldData: Ledger, oldImage: Ledger, items: seq<Item>, latest: Digests, respond: Upload -> Reply)
    requires |items| == 50
    requires forall i :: 0 <= i < |items| ==> Ready(items[i], latest)
    requires forall i, j :: 0 <= i < j < |items| ==> items[i].id != items[j].id
    requires forall i :: 0 <= i < |items| ==> items[i].id !in oldData && items[i].id !in oldImage
    requires forall u :: Accepted(u, respond(u))
    ensures var (r, p') := SyncFrom(Progress(oldData, oldImage, 1, []), items, latest, respond, AsWritten);
      r.Ok? && Uploads(p'.log) == 100 && Saves(p'.log) == 1
  {
    AsWrittenSkipsCheckpoints(Progress(oldData, oldImage, 1, []), items, latest, respond);
  }

  /** As written, with the counter at a multiple of 100, an entry that uploads nothing saves the ledger again. */
  lemma AsWrittenRepeatsCheckpoint(p: Progress, it: Item, latest: Digests, respond: Upload -> Reply)
    requires Ready(it, latest)
    requires it.id in p.data && p.data[it.id] == latest.data[it.id]
    requires it.id in p.image && p.image[it.id] == latest.image[it.id]
    requires p.counter % CHECKPOINT_EVERY == 0
    ensures var (r, p') := Step(p, it, latest, respond, AsWritten);
      p'.counter == p.counter && p'.log == p.log + [LockUpload(p.data, p.image)]
  {
  }
}
