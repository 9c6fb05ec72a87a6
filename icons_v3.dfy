/**
 * The third-generation icon sync, `src/icons/v3.ts` and its JavaScript build
 * `src/icons/v3.js`. For each Riot entry with an `imagePath`, it fetches the wiki's
 * current JSON page and the icon image, queues the image, and writes the page when it
 * is new or no longer `deepEqual` to the freshly built one. Whenever 50 images are
 * queued, and once at the end, it checks a batch of at most 50 images against the
 * wiki's SHA-1s and uploads the missing and the outdated ones.
 *
 * The wiki client (`src/client/v1.js`) is `Remote`: the reply to the n-th call the
 * script makes, or `Err` when the client itself throws. The fetches of the current page
 * and of the icon are functions of the id. Every call the script makes is logged, retries
 * included, so the properties below are about what is sent.
 */
module IconsV3 {
  import opened Wrappers
  import opened Bytes
  import opened Json
  import opened Stringify
  import opened Equality
  import opened Wiki
  import opened RiotEntry
  import opened SetBinding

  // ---------------------------------------------------------------- what the script sends

  /** The two builds differ only in their retry loops. */
  datatype Build = TypeScript | JavaScript

  /** A call to the wiki client; a page's content is the JSON value `JSON.stringify` serialises. */
  datatype Op =
    | UploadFile(filename: string, body: seq<byte>, content: string, forced: bool)
    | UpdatePage(title: string, data: Json)
    | UpdateOrCreatePage(title: string, data: Json)
    | GetImageInfo(titles: seq<string>)

  /** The client's answer to the call made after `n` others: a reply, or `Err` when it throws. */
  type Remote = (nat, Op) -> Result<Reply, Reply>

  /** Why a run stops: an unknown MIME type, or an error thrown for a reply. */
  datatype Failure = UnexpectedMime(mime: string) | Threw(reply: Reply)

  /** What the script works with besides its state: the client, `IMAGE_TEMPLATE` and the build. */
  datatype Env = Env(remote: Remote, template: string, build: Build)

  /** The image queue in insertion order and the calls made so far. */
  datatype Sync = Sync(queue: Queue, log: seq<Op>)

  const NO_CHANGE: string := "fileexists-no-change"

  // ---------------------------------------------------------------- retries

  /**
   * A retry loop making at most `passes` calls of `op`: it stops at the first reply that
   * is not a `readonly` error, and a throw of the client ends it at once.
   */
  function Retry(remote: Remote, log: seq<Op>, op: Op, passes: nat): (Result<Reply, Reply>, seq<Op>)
    requires passes >= 1
    decreases passes
  {
    var resp := remote(|log|, op);
    if resp.Err? || !IsReadOnly(resp.value) || passes == 1 then (resp, log + [op])
    else Retry(remote, log + [op], op, passes - 1)
  }

  /** The calls a retry loop may make: two for `while (attemptsLimit-- > 0)`, three for the `do ... while`. */
  function Passes(b: Build): (n: nat)
    ensures n >= 1
  {
    match b
    case TypeScript => 2
    case JavaScript => 3
  }

  /**
   * A retry loop makes between one and `passes` calls, all of `op`; its result is the
   * reply to the last one; every earlier reply was a `readonly` error; and it stops
   * before the limit only on a reply that is not one.
   */
  lemma {:induction false} RetryProperties(remote: Remote, log: seq<Op>, op: Op, passes: nat)
    requires passes >= 1
    ensures var (resp, log') := Retry(remote, log, op, passes);
      && |log| < |log'| <= |log| + passes
      && log' == log + Repeat(op, |log'| - |log|)
      && resp == remote(|log'| - 1, op)
      && (forall k :: |log| <= k < |log'| - 1 ==> remote(k, op).Ok? && IsReadOnly(remote(k, op).value))
      && (|log'| < |log| + passes ==> resp.Err? || !IsReadOnly(resp.value))
    decreases passes
  {
    var resp := remote(|log|, op);
    if !(resp.Err? || !IsReadOnly(resp.value) || passes == 1) {
      RetryProperties(remote, log + [op], op, passes - 1);
      var log' := Retry(remote, log, op, passes).1;
      RepeatCons(op, |log'| - |log| - 1);
    }
  }

  /** Against a wiki that stays read-only, the TypeScript build calls twice and the JavaScript build three times. */
  lemma {:induction false} RetryReadOnlyWiki(remote: Remote, log: seq<Op>, op: Op, passes: nat)
    requires passes >= 1
    requires forall k :: remote(k, op).Ok? && IsReadOnly(remote(k, op).value)
    ensures Retry(remote, log, op, passes).1 == log + Repeat(op, passes)
    decreases passes
  {
    if passes > 1 {
      RetryReadOnlyWiki(remote, log + [op], op, passes - 1);
      RepeatCons(op, passes - 1);
    }
  }

  lemma ReadOnlyPasses(remote: Remote, log: seq<Op>, op: Op)
    requires forall k :: remote(k, op).Ok? && IsReadOnly(remote(k, op).value)
    ensures |Retry(remote, log, op, Passes(TypeScript)).1| == |log| + 2
    ensures |Retry(remote, log, op, Passes(JavaScript)).1| == |log| + 3
  {
    RetryReadOnlyWiki(remote, log, op, 2);
    RetryReadOnlyWiki(remote, log, op, 3);
  }

  // ---------------------------------------------------------------- pages

  /** `Module:Profile-Icons/V1/icon/<id>.json`. */
  function DataTitle(id: nat): string {
    "Module:Profile-Icons/V1/icon/" + NatToString(id) + ".json"
  }

  /**
   * What `uploadData`/`updateData` make of the final reply: an error, or an edit whose
   * result is not `Success`, throws; a `nochange` edit does not.
   */
  function EditOutcome(resp: Result<Reply, Reply>): (r: Result<(), Failure>)
    ensures r.Ok? <==> resp.Ok? && resp.value.EditReply? && resp.value.result == "Success"
    ensures r.Err? ==> r.error == Threw(if resp.Err? then resp.error else resp.value)
  {
    if resp.Err? then Err(Threw(resp.error))
    else if resp.value.EditReply? && resp.value.result == "Success" then Ok(())
    else Err(Threw(resp.value))
  }

  /** `nochange` is only logged: a successful edit goes through either way. */
  lemma NoChangeIsSuccess(nochange: bool)
    ensures EditOutcome(Ok(EditReply("Success", nochange))) == Ok(())
  {
  }

  /** The three outcomes of the data comparison. */
  datatype DataCase = New | Changed | Unchanged

  function ClassifyData(current: Option<Json>, data: Json): (c: DataCase)
    ensures c == New <==> current.None?
    ensures c == Changed <==> current.Some? && !JsonEqual(current.value, data)
    ensures c == Unchanged <==> current.Some? && JsonEqual(current.value, data)
  {
    if current.None? then New
    else if !JsonEqual(current.value, data) then Changed
    else Unchanged
  }

  /** The page write for an entry: `uploadData` creates, `updateData` may not. */
  function DataWrite(env: Env, log: seq<Op>, id: nat, current: Option<Json>, data: Json): (Result<(), Failure>, seq<Op>) {
    match ClassifyData(current, data)
    case Unchanged => (Ok(()), log)
    case c =>
      var op := if c == New then UpdateOrCreatePage(DataTitle(id), data) else UpdatePage(DataTitle(id), data);
      var (resp, log') := Retry(env.remote, log, op, Passes(env.build));
      (EditOutcome(resp), log')
  }

  /**
   * A page absent from the wiki is created, a page that differs is updated without
   * the right to create it, and an equal page is not written.
   */
  lemma DataWriteCases(env: Env, log: seq<Op>, id: nat, current: Option<Json>, data: Json)
    ensures var (r, log') := DataWrite(env, log, id, current, data);
      && (current.None? ==> |log'| > |log| && log' == log + Repeat(UpdateOrCreatePage(DataTitle(id), data), |log'| - |log|))
      && (current.Some? && !JsonEqual(current.value, data) ==>
            |log'| > |log| && log' == log + Repeat(UpdatePage(DataTitle(id), data), |log'| - |log|))
      && (current.Some? && JsonEqual(current.value, data) ==> r.Ok? && log' == log)
      && |log'| <= |log| + Passes(env.build)
  {
    var c := ClassifyData(current, data);
    if c != Unchanged {
      var op := if c == New then UpdateOrCreatePage(DataTitle(id), data) else UpdatePage(DataTitle(id), data);
      RetryProperties(env.remote, log, op, Passes(env.build));
    }
  }

  /**
   * `processRawIconEntry(raw, mime)`: drop `imagePath`, `descriptions` and `rarities`,
   * then assign `sets` (the entry's set names, or none), `image` and the two arrays
   * re-keyed by region.
   */
  function ProcessRawIconEntry(raw: Json, mime: string, binding: Binding): (r: Json)
    requires IsEntry(raw)
    ensures r.JObject? && UniqueKeys(r.members)
    ensures Lookup(r.members, "imagePath") == None
    ensures Lookup(r.members, "sets") == Some(JArray(SetNames(NamesOf(binding, Id(raw)))))
    ensures Lookup(r.members, "image") == Some(JObject([("mime", JString(mime))]))
    ensures Lookup(r.members, "descriptions") == Some(JObject(ByRegion(Descriptions(raw))))
    ensures Lookup(r.members, "rarities") == Some(JObject(ByRegion(Rarities(raw))))
    ensures forall k :: k != "imagePath" && k != "descriptions" && k != "rarities" && k != "sets" && k != "image" ==>
      Lookup(r.members, k) == Lookup(raw.members, k)
  {
    var data := Strip(raw.members);
    var sets := JArray(SetNames(NamesOf(binding, Id(raw))));
    var image := JObject([("mime", JString(mime))]);
    var descriptions := JObject(ByRegion(Descriptions(raw)));
    var rarities := JObject(ByRegion(Rarities(raw)));
    var r := Extend(data, sets, image, descriptions, rarities);
    assert Lookup(r, "imagePath") == Lookup(data, "imagePath");
    JObject(r)
  }

  /** `const { imagePath, descriptions, rarities, ...data } = raw`. */
  function Strip(ms: Members): (r: Members)
    requires UniqueKeys(ms)
    ensures UniqueKeys(r)
    ensures Lookup(r, "imagePath") == None && Lookup(r, "descriptions") == None && Lookup(r, "rarities") == None
    ensures forall k :: k != "imagePath" && k != "descriptions" && k != "rarities" ==> Lookup(r, k) == Lookup(ms, k)
  {
    var m0 := Remove(ms, "imagePath");
    RemoveUnique(ms, "imagePath");
    var m1 := Remove(m0, "descriptions");
    RemoveUnique(m0, "descriptions");
    RemoveUnique(m1, "rarities");
    Remove(m1, "rarities")
  }

  /** `Object.assign(data, { sets, image, descriptions, rarities })`, in that order. */
  function Extend(data: Members, sets: Json, image: Json, descriptions: Json, rarities: Json): (r: Members)
    requires UniqueKeys(data)
    ensures UniqueKeys(r)
    ensures Lookup(r, "sets") == Some(sets) && Lookup(r, "image") == Some(image)
    ensures Lookup(r, "descriptions") == Some(descriptions) && Lookup(r, "rarities") == Some(rarities)
    ensures forall k :: k != "sets" && k != "image" && k != "descriptions" && k != "rarities" ==> Lookup(r, k) == Lookup(data, k)
  {
    var a1 := Assign(data, "sets", sets);
    AssignUnique(data, "sets", sets);
    var a2 := Assign(a1, "image", image);
    AssignUnique(a1, "image", image);
    var a3 := Assign(a2, "descriptions", descriptions);
    AssignUnique(a2, "descriptions", descriptions);
    AssignUnique(a3, "rarities", rarities);
    Assign(a3, "rarities", rarities)
  }

  function SetNames(names: seq<string>): (r: seq<Json>)
    ensures |r| == |names| && forall i :: 0 <= i < |names| ==> r[i] == JString(names[i])
  {
    seq(|names|, i requires 0 <= i < |names| => JString(names[i]))
  }

  // ---------------------------------------------------------------- the image queue

  /** An icon as fetched: its MIME type, the SHA-1 of its bytes, and the bytes. */
  datatype Icon = Icon(mime: string, sha1: string, body: seq<byte>)

  /** `imageQueue`, a `Map` in insertion order. */
  type Queue = seq<(nat, Icon)>

  function Ids(q: Queue): (ids: seq<nat>)
    ensures |ids| == |q| && forall i :: 0 <= i < |q| ==> ids[i] == q[i].0
  {
    seq(|q|, i requires 0 <= i < |q| => q[i].0)
  }

  predicate UniqueIds(q: Queue) {
    forall i, j :: 0 <= i < j < |q| ==> q[i].0 != q[j].0
  }

  /** `queue.set(id, icon)`: a known id keeps its place and takes the new icon; a new id goes last. */
  function QueueSet(q: Queue, id: nat, icon: Icon): (r: Queue)
    ensures id in Ids(q) ==> |r| == |q|
    ensures id !in Ids(q) ==> |r| == |q| + 1 && r[|q|] == (id, icon)
    ensures forall i :: 0 <= i < |q| ==> r[i] == if q[i].0 == id then (id, icon) else q[i]
    ensures UniqueIds(q) ==> UniqueIds(r)
  {
    if id in Ids(q) then seq(|q|, i requires 0 <= i < |q| => if q[i].0 == id then (id, icon) else q[i])
    else q + [(id, icon)]
  }

  /** `queue.delete(id)`. */
  function QueueDelete(q: Queue, id: nat): (r: Queue)
    decreases |q|
  {
    if q == [] then [] else (if q[0].0 == id then [] else [q[0]]) + QueueDelete(q[1..], id)
  }

  /** Deleting an id the queue does not hold changes nothing. */
  lemma {:induction false} QueueDeleteAbsent(q: Queue, id: nat)
    requires id !in Ids(q)
    ensures QueueDelete(q, id) == q
    decreases |q|
  {
    if q != [] {
      assert Ids(q[1..]) == Ids(q)[1..];
      QueueDeleteAbsent(q[1..], id);
    }
  }

  /** Deleting the oldest id of a queue of distinct ids removes just its head. */
  lemma QueueDeleteHead(q: Queue)
    requires q != [] && UniqueIds(q)
    ensures QueueDelete(q, q[0].0) == q[1..]
  {
    assert forall i :: 0 <= i < |q| - 1 ==> Ids(q[1..])[i] == q[i + 1].0;
    QueueDeleteAbsent(q[1..], q[0].0);
  }

  // ---------------------------------------------------------------- selecting a batch

  const BATCH: nat := 50

  const MIME_TO_EXT: map<string, string> := map["image/jpeg" := "jpeg"]

  /** A selected image: its id, file name, bytes and SHA-1. */
  datatype Slot = Slot(id: nat, filename: string, body: seq<byte>, sha1: string)

  /** `Profile-Icons-V1-<id>.<ext>`, with the extension of the MIME type. */
  function FileName(id: nat, mime: string): string
    requires mime in MIME_TO_EXT
  {
    "Profile-Icons-V1-" + NatToString(id) + "." + MIME_TO_EXT[mime]
  }

  function SlotOf(e: (nat, Icon)): Slot
    requires e.1.mime in MIME_TO_EXT
  {
    Slot(e.0, FileName(e.0, e.1.mime), e.1.body, e.1.sha1)
  }

  function Min(a: nat, b: nat): nat {
    if a < b then a else b
  }

  /** The index of the first image whose MIME type has no extension, or the queue's length. */
  function FirstUnknown(q: Queue): (j: nat)
    ensures j <= |q|
    ensures forall i :: 0 <= i < j ==> q[i].1.mime in MIME_TO_EXT
    ensures j < |q| ==> q[j].1.mime !in MIME_TO_EXT
    decreases |q|
  {
    if q == [] || q[0].1.mime !in MIME_TO_EXT then 0
    else
      assert forall i :: 0 <= i < |q[1..]| ==> q[1..][i] == q[i + 1];
      1 + FirstUnknown(q[1..])
  }

  /**
   * The first loop of `checkImages`: the first `max` images at most, in queue order,
   * each named after its id and extension; the first image with a MIME type outside
   * `MIME_TO_EXT` throws instead.
   */
  function Select(q: Queue, max: nat): Result<seq<Slot>, Failure>
    decreases max
  {
    if max == 0 || q == [] then Ok([])
    else if q[0].1.mime !in MIME_TO_EXT then Err(UnexpectedMime(q[0].1.mime))
    else
      var rest := Select(q[1..], max - 1);
      if rest.Err? then Err(rest.error) else Ok([SlotOf(q[0])] + rest.value)
  }

  /**
   * The batch is the first `min(size, max)` images in queue order, each named after its
   * id and extension, exactly when none of them has an unknown MIME type; otherwise
   * the first unknown one throws.
   */
  lemma {:induction false} SelectProperties(q: Queue, max: nat)
    ensures var r := Select(q, max);
      && (r.Ok? <==> Min(|q|, max) <= FirstUnknown(q))
      && (r.Ok? ==> |r.value| == Min(|q|, max))
      && (r.Ok? ==> forall i :: 0 <= i < |r.value| ==> q[i].1.mime in MIME_TO_EXT && r.value[i] == SlotOf(q[i]))
      && (r.Err? ==> FirstUnknown(q) < Min(|q|, max) && r.error == UnexpectedMime(q[FirstUnknown(q)].1.mime))
    decreases max
  {
    if max == 0 || q == [] {
    } else if q[0].1.mime !in MIME_TO_EXT {
    } else {
      SelectProperties(q[1..], max - 1);
      assert forall i :: 0 <= i < |q[1..]| ==> q[1..][i] == q[i + 1];
      assert FirstUnknown(q) == 1 + FirstUnknown(q[1..]);
    }
  }

  /** `File:<filename>` for each selected image, the titles asked of the wiki. */
  function Titles(slice: seq<Slot>): (ts: seq<string>)
    ensures |ts| == |slice| && forall i :: 0 <= i < |slice| ==> ts[i] == "File:" + slice[i].filename
  {
    seq(|slice|, i requires 0 <= i < |slice| => "File:" + slice[i].filename)
  }

  // ---------------------------------------------------------------- the wiki's hashes

  /** `title.substring(5)`, which drops `File:` and is empty for a shorter title. */
  function FileTitle(title: string): string {
    if |title| >= 5 then title[5..] else ""
  }

  /**
   * The lookup by `title.substring(5)` finds each selected image under its own file
   * name, and images with different file names are asked for under different titles.
   */
  lemma TitlesFileNames(slice: seq<Slot>)
    ensures forall i :: 0 <= i < |slice| ==> FileTitle(Titles(slice)[i]) == slice[i].filename
    ensures forall i, j :: 0 <= i < |slice| && 0 <= j < |slice| && slice[i].filename != slice[j].filename ==>
      Titles(slice)[i] != Titles(slice)[j]
  {
  }

  /** The reduce over the image-info pages: every page that is not missing, by file name. */
  function Integrity(pages: seq<Page>): map<string, string>
    decreases |pages|
  {
    if pages == [] then map[]
    else
      var last := pages[|pages| - 1];
      var m := Integrity(pages[..|pages| - 1]);
      if last.sha1.Some? then m[FileTitle(last.title) := last.sha1.value] else m
  }

  /** The index of the last page present under file name `f`. */
  function LastPage(pages: seq<Page>, f: string): (r: Option<nat>)
    ensures r.None? <==> forall j :: 0 <= j < |pages| ==> pages[j].sha1.None? || FileTitle(pages[j].title) != f
    ensures r.Some? ==> r.value < |pages| && pages[r.value].sha1.Some? && FileTitle(pages[r.value].title) == f
    ensures r.Some? ==> forall j :: r.value < j < |pages| ==> pages[j].sha1.None? || FileTitle(pages[j].title) != f
    decreases |pages|
  {
    if pages == [] then None
    else
      var last := pages[|pages| - 1];
      if last.sha1.Some? && FileTitle(last.title) == f then Some(|pages| - 1)
      else
        var init := pages[..|pages| - 1];
        assert forall j :: 0 <= j < |init| ==> init[j] == pages[j];
        LastPage(init, f)
  }

  /** A file name has a hash exactly when some page for it is present, and it is the hash of the last such page. */
  lemma {:induction false} IntegrityLookup(pages: seq<Page>, f: string)
    ensures f in Integrity(pages) <==> LastPage(pages, f).Some?
    ensures f in Integrity(pages) ==> Integrity(pages)[f] == pages[LastPage(pages, f).value].sha1.value
    decreases |pages|
  {
    if pages != [] {
      var init := pages[..|pages| - 1];
      assert forall j :: 0 <= j < |init| ==> init[j] == pages[j];
      IntegrityLookup(init, f);
    }
  }

  // ---------------------------------------------------------------- checking one image

  datatype ImageCase = Missing | Outdated | Fine

  function ClassifyImage(integrity: map<string, string>, s: Slot): (c: ImageCase)
    ensures c == Missing <==> s.filename !in integrity
    ensures c == Outdated <==> s.filename in integrity && integrity[s.filename] != s.sha1
    ensures c == Fine <==> s.filename in integrity && integrity[s.filename] == s.sha1
  {
    if s.filename !in integrity then Missing
    else if integrity[s.filename] != s.sha1 then Outdated
    else Fine
  }

  /** An upload reply the script goes on after: anything but an error, or `fileexists-no-change`. */
  function Tolerate(resp: Result<Reply, Reply>): (r: Result<(), Failure>)
    ensures r.Ok? <==> resp.Ok? && (!resp.value.ErrorReply? || resp.value.code == NO_CHANGE)
  {
    if resp.Err? then Err(Threw(resp.error))
    else if resp.value.ErrorReply? && resp.value.code != NO_CHANGE then Err(Threw(resp.value))
    else Ok(())
  }

  /** An upload that succeeded with one warning, `duplicate`. */
  predicate OnlyDuplicate(r: Reply) {
    r.UploadReply? && r.result == "Warning" && r.warnings == ["duplicate"]
  }

  function Upload(env: Env, s: Slot, forced: bool): Op {
    UploadFile(s.filename, s.body, env.template, forced)
  }

  /**
   * The second loop of `checkImages` for one image. A missing file is uploaded, and
   * uploaded again with `ignorewarnings` when the only warning is `duplicate`; an
   * outdated one is uploaded with `ignorewarnings`; a fine one is left alone.
   * Reading `upload.result` of a reply that is neither an error nor an upload result
   * throws.
   */
  function CheckSlot(env: Env, log: seq<Op>, s: Slot, integrity: map<string, string>): (Result<(), Failure>, seq<Op>) {
    match ClassifyImage(integrity, s)
    case Fine => (Ok(()), log)
    case Outdated =>
      var (resp, log') := Retry(env.remote, log, Upload(env, s, true), Passes(env.build));
      (Tolerate(resp), log')
    case Missing =>
      var (resp, log') := Retry(env.remote, log, Upload(env, s, false), Passes(env.build));
      if resp.Err? || resp.value.ErrorReply? then (Tolerate(resp), log')
      else if !resp.value.UploadReply? then (Err(Threw(resp.value)), log')
      else if OnlyDuplicate(resp.value) then
        var (resp2, log'') := Retry(env.remote, log', Upload(env, s, true), Passes(env.build));
        (Tolerate(resp2), log'')
      else (Ok(()), log')
  }

  /** A fine image sends nothing. */
  lemma CheckSlotFine(env: Env, log: seq<Op>, s: Slot, integrity: map<string, string>)
    requires ClassifyImage(integrity, s) == Fine
    ensures CheckSlot(env, log, s, integrity) == (Ok(()), log)
  {
  }

  /** An outdated image sends forced uploads of itself and nothing else. */
  lemma CheckSlotOutdated(env: Env, log: seq<Op>, s: Slot, integrity: map<string, string>)
    requires ClassifyImage(integrity, s) == Outdated
    ensures var log' := CheckSlot(env, log, s, integrity).1;
      |log'| > |log| && log' == log + Repeat(Upload(env, s, true), |log'| - |log|)
  {
    RetryProperties(env.remote, log, Upload(env, s, true), Passes(env.build));
  }

  /**
   * A missing image sends unforced uploads of itself, then forced ones exactly when the
   * last unforced reply carried the single `duplicate` warning.
   */
  lemma CheckSlotMissing(env: Env, log: seq<Op>, s: Slot, integrity: map<string, string>)
    requires ClassifyImage(integrity, s) == Missing
    ensures var (resp, first) := Retry(env.remote, log, Upload(env, s, false), Passes(env.build));
      var log' := CheckSlot(env, log, s, integrity).1;
      && |first| > |log| && first == log + Repeat(Upload(env, s, false), |first| - |log|)
      && (resp.Ok? && OnlyDuplicate(resp.value) ==>
            |log'| > |first| && log' == first + Repeat(Upload(env, s, true), |log'| - |first|))
      && (!(resp.Ok? && OnlyDuplicate(resp.value)) ==> log' == first)
  {
    RetryProperties(env.remote, log, Upload(env, s, false), Passes(env.build));
    var first := Retry(env.remote, log, Upload(env, s, false), Passes(env.build)).1;
    RetryProperties(env.remote, first, Upload(env, s, true), Passes(env.build));
  }

  /** Whatever the case, checking an image only adds calls. */
  lemma CheckSlotLog(env: Env, log: seq<Op>, s: Slot, integrity: map<string, string>)
    ensures var log' := CheckSlot(env, log, s, integrity).1;
      |log| <= |log'| && log'[..|log|] == log
  {
    match ClassifyImage(integrity, s)
    case Fine =>
    case Outdated =>
      CheckSlotOutdated(env, log, s, integrity);
    case Missing =>
      CheckSlotMissing(env, log, s, integrity);
      var first := Retry(env.remote, log, Upload(env, s, false), Passes(env.build)).1;
      var log' := CheckSlot(env, log, s, integrity).1;
      assert log'[..|log|] == log'[..|first|][..|log|];
  }

  /** `fileexists-no-change` on the upload of a missing file does not stop the script. */
  lemma NoChangeTolerated(env: Env, log: seq<Op>, s: Slot, integrity: map<string, string>, info: string)
    requires ClassifyImage(integrity, s) == Missing
    requires Retry(env.remote, log, Upload(env, s, false), Passes(env.build)).0 == Ok(ErrorReply(NO_CHANGE, info))
    ensures CheckSlot(env, log, s, integrity).0.Ok?
  {
  }

  /** The second loop of `checkImages`, stopping at the first throw. */
  function CheckSlots(env: Env, log: seq<Op>, slots: seq<Slot>, integrity: map<string, string>): (Result<(), Failure>, seq<Op>)
    decreases |slots|
  {
    if slots == [] then (Ok(()), log)
    else
      var (r, log') := CheckSlot(env, log, slots[0], integrity);
      if r.Err? then (r, log') else CheckSlots(env, log', slots[1..], integrity)
  }

  /**
   * `checkImages(queue)`: select the batch, drop it from the queue, ask the wiki for the
   * batch's hashes (an error reply throws, and so does a reply without pages) and check
   * each image.
   */
  function CheckImages(env: Env, st: Sync): (Result<(), Failure>, Sync) {
    SelectProperties(st.queue, BATCH);
    match Select(st.queue, BATCH)
    case Err(e) => (Err(e), st)
    case Ok(slice) =>
      var queue := st.queue[|slice|..];
      var op := GetImageInfo(Titles(slice));
      var resp := env.remote(|st.log|, op);
      var log := st.log + [op];
      if resp.Err? then (Err(Threw(resp.error)), Sync(queue, log))
      else if !resp.value.ImageInfoReply? then (Err(Threw(resp.value)), Sync(queue, log))
      else
        var (r, log') := CheckSlots(env, log, slice, Integrity(resp.value.pages));
        (r, Sync(queue, log'))
  }

  /**
   * A batch is the oldest `min(50, size)` images: once it is selected, exactly that batch
   * leaves the queue, whatever the wiki answers, and the first call asks for the batch's
   * file titles. (When it is not, an unknown MIME type throws before the queue is touched.)
   */
  lemma CheckImagesBatch(env: Env, st: Sync)
    requires Select(st.queue, BATCH).Ok?
    ensures var st' := CheckImages(env, st).1;
      && st'.queue == st.queue[Min(|st.queue|, BATCH)..]
      && |st'.log| > |st.log|
      && st'.log[|st.log|] == GetImageInfo(Titles(Select(st.queue, BATCH).value))
  {
    SelectProperties(st.queue, BATCH);
    var slice := Select(st.queue, BATCH).value;
    var op := GetImageInfo(Titles(slice));
    var resp := env.remote(|st.log|, op);
    var log := st.log + [op];
    assert |slice| == Min(|st.queue|, BATCH);
    if resp.Ok? && resp.value.ImageInfoReply? {
      var log' := CheckSlots(env, log, slice, Integrity(resp.value.pages)).1;
      CheckSlotsLog(env, log, slice, Integrity(resp.value.pages));
      assert CheckImages(env, st).1 == Sync(st.queue[|slice|..], log');
      assert log'[|st.log|] == log'[..|log|][|st.log|] == op;
    } else {
      assert CheckImages(env, st).1 == Sync(st.queue[|slice|..], log);
    }
  }

  lemma CheckImagesMime(env: Env, st: Sync)
    requires Select(st.queue, BATCH).Err?
    ensures FirstUnknown(st.queue) < |st.queue|
    ensures CheckImages(env, st) == (Err(UnexpectedMime(st.queue[FirstUnknown(st.queue)].1.mime)), st)
  {
    SelectProperties(st.queue, BATCH);
  }

  /** The image checks only ever add calls. */
  lemma {:induction false} CheckSlotsLog(env: Env, log: seq<Op>, slots: seq<Slot>, integrity: map<string, string>)
    ensures var log' := CheckSlots(env, log, slots, integrity).1;
      |log| <= |log'| && log'[..|log|] == log
    decreases |slots|
  {
    if slots != [] {
      var (r, log1) := CheckSlot(env, log, slots[0], integrity);
      CheckSlotLog(env, log, slots[0], integrity);
      if r.Ok? {
        CheckSlotsLog(env, log1, slots[1..], integrity);
        var log' := CheckSlots(env, log1, slots[1..], integrity).1;
        assert log'[..|log|] == log'[..|log1|][..|log|];
      }
    }
  }

  // ---------------------------------------------------------------- entries

  /** What the loop needs of an entry: its id, the pages and icon fetched for it, and the page to compare. */
  datatype Job = Job(id: nat, current: Option<Json>, icon: Icon, data: Json)

  /** The fetches of an id: `getCurentIconData` (`None` for a 404) and `getIcon`. */
  datatype Fetch = Fetch(current: nat -> Option<Json>, icon: nat -> Icon)

  function JobOf(entry: Json, fetch: Fetch, binding: Binding): Job
    requires IsEntry(entry)
  {
    var icon := fetch.icon(Id(entry));
    Job(Id(entry), fetch.current(Id(entry)), icon, ProcessRawIconEntry(entry, icon.mime, binding))
  }

  function Jobs(entries: seq<Json>, fetch: Fetch, binding: Binding): (js: seq<Job>)
    requires forall i :: 0 <= i < |entries| ==> IsEntry(entries[i])
    ensures |js| == |entries| && forall i :: 0 <= i < |entries| ==> js[i] == JobOf(entries[i], fetch, binding)
  {
    seq(|entries|, i requires 0 <= i < |entries| => JobOf(entries[i], fetch, binding))
  }

  /** `processIconEntry(entry)`: queue the icon, write the page if needed, then check a batch once 50 are queued. */
  function EntryStep(env: Env, st: Sync, job: Job): (Result<(), Failure>, Sync) {
    var queue := QueueSet(st.queue, job.id, job.icon);
    var (r, log) := DataWrite(env, st.log, job.id, job.current, job.data);
    if r.Err? then (r, Sync(queue, log))
    else if |queue| >= BATCH then CheckImages(env, Sync(queue, log))
    else (Ok(()), Sync(queue, log))
  }

  /** The main block: every entry in order, then a last `checkImages`. */
  function RunFrom(env: Env, st: Sync, jobs: seq<Job>): (Result<(), Failure>, Sync)
    decreases |jobs|
  {
    if jobs == [] then CheckImages(env, st)
    else
      var (r, st') := EntryStep(env, st, jobs[0]);
      if r.Err? then (r, st') else RunFrom(env, st', jobs[1..])
  }

  /** The queue invariant: distinct ids and, between entries, fewer than 50 of them. */
  predicate QueueOk(q: Queue) {
    UniqueIds(q) && |q| < BATCH
  }

  /** An entry that goes through keeps the queue invariant: the 50th image triggers a check that empties the queue. */
  lemma EntryStepQueue(env: Env, st: Sync, job: Job)
    requires QueueOk(st.queue)
    ensures var (r, st') := EntryStep(env, st, job);
      r.Ok? ==> QueueOk(st'.queue)
  {
    var queue := QueueSet(st.queue, job.id, job.icon);
    var (r, log) := DataWrite(env, st.log, job.id, job.current, job.data);
    if r.Ok? && |queue| >= BATCH && Select(queue, BATCH).Ok? {
      CheckImagesBatch(env, Sync(queue, log));
    }
  }

  /** A run that finishes leaves no image unchecked. */
  lemma {:induction false} RunEmptiesQueue(env: Env, st: Sync, jobs: seq<Job>)
    requires QueueOk(st.queue)
    ensures var (r, st') := RunFrom(env, st, jobs);
      r.Ok? ==> st'.queue == []
    decreases |jobs|
  {
    if jobs == [] {
      if Select(st.queue, BATCH).Ok? {
        CheckImagesBatch(env, st);
      }
    } else {
      var (r, st1) := EntryStep(env, st, jobs[0]);
      EntryStepQueue(env, st, jobs[0]);
      if r.Ok? {
        RunEmptiesQueue(env, st1, jobs[1..]);
      }
    }
  }

  /** The script's run over the fetched listing: the entries with `imagePath`, from an empty queue. */
  function Run(env: Env, entries: seq<Json>, fetch: Fetch, binding: Binding): (Result<(), Failure>, Sync)
    requires forall i :: 0 <= i < |entries| ==> IsEntry(entries[i])
  {
    WithImagePathEntries(entries);
    RunFrom(env, Sync([], []), Jobs(WithImagePath(entries), fetch, binding))
  }

  lemma {:induction false} WithImagePathEntries(entries: seq<Json>)
    requires forall i :: 0 <= i < |entries| ==> IsEntry(entries[i])
    ensures forall i :: 0 <= i < |WithImagePath(entries)| ==> IsEntry(WithImagePath(entries)[i])
    decreases |entries|
  {
    if entries != [] {
      var init := entries[..|entries| - 1];
      WithImagePathEntries(init);
    }
  }

  /**
   * The JavaScript build's second block: the whole listing once more, entry after entry,
   * with no `checkImages` after it.
   */
  function PassFrom(env: Env, st: Sync, jobs: seq<Job>): (Result<(), Failure>, Sync)
    decreases |jobs|
  {
    if jobs == [] then (Ok(()), st)
    else
      var (r, st') := EntryStep(env, st, jobs[0]);
      if r.Err? then (r, st') else PassFrom(env, st', jobs[1..])
  }

  /**
   * The whole script. The TypeScript build is the main block alone. The JavaScript build
   * then handles every entry a second time, with the fetches `again` made at that later
   * moment, when the first pass may already have changed the wiki's pages.
   */
  function Script(env: Env, entries: seq<Json>, fetch: Fetch, again: Fetch, binding: Binding): (Result<(), Failure>, Sync)
    requires forall i :: 0 <= i < |entries| ==> IsEntry(entries[i])
  {
    var first := Run(env, entries, fetch, binding);
    if env.build == TypeScript || first.0.Err? then first
    else
      WithImagePathEntries(entries);
      PassFrom(env, first.1, Jobs(WithImagePath(entries), again, binding))
  }

  /** The second pass keeps the queue invariant. */
  lemma {:induction false} PassQueueOk(env: Env, st: Sync, jobs: seq<Job>)
    requires QueueOk(st.queue)
    ensures PassFrom(env, st, jobs).0.Ok? ==> QueueOk(PassFrom(env, st, jobs).1.queue)
    decreases |jobs|
  {
    if jobs != [] {
      var next := EntryStep(env, st, jobs[0]);
      EntryStepQueue(env, st, jobs[0]);
      if next.0.Ok? {
        PassQueueOk(env, next.1, jobs[1..]);
      }
    }
  }

  /** `Map.set` keeps every queued id, adds the new one, and grows the queue by at most one. */
  lemma QueueSetIds(q: Queue, id: nat, icon: Icon)
    ensures var r := QueueSet(q, id, icon);
      && |r| <= |q| + 1
      && id in Ids(r)
      && forall i :: 0 <= i < |q| ==> q[i].0 in Ids(r)
  {
    var r := QueueSet(q, id, icon);
    if id in Ids(q) {
      var i :| 0 <= i < |q| && Ids(q)[i] == id;
      assert Ids(r)[i] == id;
    } else {
      assert Ids(r)[|q|] == id;
    }
    forall i | 0 <= i < |q|
      ensures q[i].0 in Ids(r)
    {
      assert Ids(r)[i] == q[i].0;
    }
  }

  /** An entry that leaves fewer than 50 images queued checks none: it only queues its own. */
  lemma EntryStepQuiet(env: Env, st: Sync, job: Job)
    requires |QueueSet(st.queue, job.id, job.icon)| < BATCH
    ensures var (r, st') := EntryStep(env, st, job);
      r.Ok? ==> st'.queue == QueueSet(st.queue, job.id, job.icon)
  {
  }

  /** While fewer than 50 images can be queued, no entry triggers a check: every id stays queued. */
  lemma {:induction false} PassKeepsQueued(env: Env, st: Sync, jobs: seq<Job>)
    requires |st.queue| + |jobs| < BATCH
    ensures var (r, st') := PassFrom(env, st, jobs);
      r.Ok? ==>
        && (forall i :: 0 <= i < |st.queue| ==> st.queue[i].0 in Ids(st'.queue))
        && (forall j :: 0 <= j < |jobs| ==> jobs[j].id in Ids(st'.queue))
    decreases |jobs|
  {
    if jobs != [] {
      var job := jobs[0];
      var queue := QueueSet(st.queue, job.id, job.icon);
      QueueSetIds(st.queue, job.id, job.icon);
      EntryStepQuiet(env, st, job);
      var next := EntryStep(env, st, job);
      if next.0.Ok? {
        var st1 := next.1;
        assert PassFrom(env, st, jobs) == PassFrom(env, st1, jobs[1..]);
        PassKeepsQueued(env, st1, jobs[1..]);
        var last := PassFrom(env, st1, jobs[1..]).1;
        if PassFrom(env, st1, jobs[1..]).0.Ok? {
          assert forall i :: 0 <= i < |queue| ==> queue[i].0 in Ids(last.queue);
          assert forall k :: 0 <= k < |queue| ==> Ids(queue)[k] == queue[k].0;
          forall j | 0 <= j < |jobs|
            ensures jobs[j].id in Ids(last.queue)
          {
            if j > 0 {
              assert jobs[j] == jobs[1..][j - 1];
            }
          }
        }
      }
    }
  }

  /** The TypeScript script is its main block, so a run that finishes leaves no image unchecked. */
  lemma TypeScriptScriptEmpties(env: Env, entries: seq<Json>, fetch: Fetch, again: Fetch, binding: Binding)
    requires env.build == TypeScript
    requires forall i :: 0 <= i < |entries| ==> IsEntry(entries[i])
    ensures Script(env, entries, fetch, again, binding) == Run(env, entries, fetch, binding)
    ensures Script(env, entries, fetch, again, binding).0.Ok? ==> Script(env, entries, fetch, again, binding).1.queue == []
  {
    RunEmpties(env, entries, fetch, binding);
  }

  /** Either build ends a finished script with fewer than 50 distinct images queued. */
  lemma ScriptQueueOk(env: Env, entries: seq<Json>, fetch: Fetch, again: Fetch, binding: Binding)
    requires forall i :: 0 <= i < |entries| ==> IsEntry(entries[i])
    ensures Script(env, entries, fetch, again, binding).0.Ok? ==> QueueOk(Script(env, entries, fetch, again, binding).1.queue)
  {
    if env.build == TypeScript {
      TypeScriptScriptEmpties(env, entries, fetch, again, binding);
    } else {
      WithImagePathEntries(entries);
      RunEmpties(env, entries, fetch, binding);
      ScriptJavaScript(env, entries, fetch, again, binding);
      var first := Run(env, entries, fetch, binding);
      if first.0.Ok? {
        PassQueueOk(env, first.1, Jobs(WithImagePath(entries), again, binding));
      }
    }
  }

  /** A JavaScript script stops where its main block fails, and otherwise goes on with the second pass. */
  lemma ScriptJavaScript(env: Env, entries: seq<Json>, fetch: Fetch, again: Fetch, binding: Binding)
    requires env.build == JavaScript
    requires forall i :: 0 <= i < |entries| ==> IsEntry(entries[i])
    requires forall i :: 0 <= i < |WithImagePath(entries)| ==> IsEntry(WithImagePath(entries)[i])
    ensures Script(env, entries, fetch, again, binding)
      == if Run(env, entries, fetch, binding).0.Err? then Run(env, entries, fetch, binding)
         else PassFrom(env, Run(env, entries, fetch, binding).1, Jobs(WithImagePath(entries), again, binding))
  {
  }

  /** A second pass over fewer than 50 entries from an empty queue leaves each of their images queued. */
  lemma PassLeavesQueued(env: Env, st: Sync, jobs: seq<Job>)
    requires st.queue == [] && 0 < |jobs| < BATCH
    ensures PassFrom(env, st, jobs).0.Ok? ==>
      && PassFrom(env, st, jobs).1.queue != []
      && forall j :: 0 <= j < |jobs| ==> jobs[j].id in Ids(PassFrom(env, st, jobs).1.queue)
  {
    PassKeepsQueued(env, st, jobs);
  }

  /** The main block that finishes leaves no image queued. */
  lemma RunEmpties(env: Env, entries: seq<Json>, fetch: Fetch, binding: Binding)
    requires forall i :: 0 <= i < |entries| ==> IsEntry(entries[i])
    ensures Run(env, entries, fetch, binding).0.Ok? ==> Run(env, entries, fetch, binding).1.queue == []
  {
    WithImagePathEntries(entries);
    RunEmptiesQueue(env, Sync([], []), Jobs(WithImagePath(entries), fetch, binding));
  }

  /**
   * The JavaScript build's second pass is not followed by `checkImages`: on a listing of
   * fewer than 50 icons, a script that finishes leaves every one of them queued and unchecked.
   */
  lemma JavaScriptLeavesUnchecked(env: Env, entries: seq<Json>, fetch: Fetch, again: Fetch, binding: Binding)
    requires env.build == JavaScript
    requires forall i :: 0 <= i < |entries| ==> IsEntry(entries[i])
    requires 0 < |WithImagePath(entries)| < BATCH
    ensures var s := Script(env, entries, fetch, again, binding);
      s.0.Ok? ==> s.1.queue != [] && forall i :: 0 <= i < |entries| && HasImagePath(entries[i]) ==> Id(entries[i]) in Ids(s.1.queue)
  {
    WithImagePathEntries(entries);
    var first := Run(env, entries, fetch, binding);
    RunEmpties(env, entries, fetch, binding);
    ScriptJavaScript(env, entries, fetch, again, binding);
    if first.0.Ok? {
      var jobs := Jobs(WithImagePath(entries), again, binding);
      PassLeavesQueued(env, first.1, jobs);
      var second := PassFrom(env, first.1, jobs);
      if second.0.Ok? {
        ListedIdsQueued(entries, again, binding, second.1.queue);
      }
    }
  }

  /** A queue holding the id of every job holds the id of every listed entry with `imagePath`. */
  lemma ListedIdsQueued(entries: seq<Json>, fetch: Fetch, binding: Binding, q: Queue)
    requires forall i :: 0 <= i < |entries| ==> IsEntry(entries[i])
    requires forall i :: 0 <= i < |WithImagePath(entries)| ==> IsEntry(WithImagePath(entries)[i])
    requires forall j :: 0 <= j < |WithImagePath(entries)| ==> Jobs(WithImagePath(entries), fetch, binding)[j].id in Ids(q)
    ensures forall i :: 0 <= i < |entries| && HasImagePath(entries[i]) ==> Id(entries[i]) in Ids(q)
  {
    forall i | 0 <= i < |entries| && HasImagePath(entries[i])
      ensures Id(entries[i]) in Ids(q)
    {
      var k := WithImagePathIndex(entries, i);
      JobIdAt(WithImagePath(entries), fetch, binding, k);
    }
  }

  /** The k-th job carries the k-th entry's id. */
  lemma JobIdAt(entries: seq<Json>, fetch: Fetch, binding: Binding, k: nat)
    requires forall i :: 0 <= i < |entries| ==> IsEntry(entries[i])
    requires k < |entries|
    ensures Jobs(entries, fetch, binding)[k].id == Id(entries[k])
  {
    assert Jobs(entries, fetch, binding)[k] == JobOf(entries[k], fetch, binding);
  }

  // ---------------------------------------------------------------- the script, imperative

  /** The script's state: the image queue and the calls made through the client. */
  class IconSync {
    const env: Env
    const binding: Binding
    var queue: Queue
    var log: seq<Op>

    function State(): Sync
      reads this
    {
      Sync(queue, log)
    }

    constructor(env: Env, binding: Binding)
      ensures this.env == env && this.binding == binding && State() == Sync([], [])
    {
      this.env := env;
      this.binding := binding;
      queue := [];
      log := [];
    }

    /** One call through the client. */
    method Call(op: Op) returns (resp: Result<Reply, Reply>)
      modifies this
      ensures resp == env.remote(|old(log)|, op) && log == old(log) + [op] && queue == old(queue)
    {
      resp := env.remote(|log|, op);
      log := log + [op];
    }

    /** The TypeScript loop: `while (attemptsLimit-- > 0)` from 2, leaving early on a reply that is not `readonly`. */
    method RetryWhile(op: Op) returns (resp: Result<Reply, Reply>)
      modifies this
      ensures (resp, log) == Retry(env.remote, old(log), op, 2) && queue == old(queue)
    {
      var attemptsLimit := 2;
      resp := Err(ErrorReply("", ""));
      while attemptsLimit > 0
        invariant 0 <= attemptsLimit <= 2 && queue == old(queue)
        invariant attemptsLimit > 0 ==> Retry(env.remote, old(log), op, 2) == Retry(env.remote, log, op, attemptsLimit)
        invariant attemptsLimit == 0 ==> Retry(env.remote, old(log), op, 2) == (resp, log)
      {
        attemptsLimit := attemptsLimit - 1;
        resp := Call(op);
        if resp.Err? || !IsReadOnly(resp.value) {
          break;
        }
      }
    }

    /** The JavaScript loop: `do ... while (attemptsLimit-- > 0)` from 2, one pass more. */
    method RetryDoWhile(op: Op) returns (resp: Result<Reply, Reply>)
      modifies this
      ensures (resp, log) == Retry(env.remote, old(log), op, 3) && queue == old(queue)
    {
      var attemptsLimit := 2;
      while true
        invariant 0 <= attemptsLimit <= 2 && queue == old(queue)
        invariant Retry(env.remote, old(log), op, 3) == Retry(env.remote, log, op, attemptsLimit + 1)
        decreases attemptsLimit
      {
        resp := Call(op);
        if resp.Err? || !IsReadOnly(resp.value) {
          break;
        }
        var again := attemptsLimit > 0;
        if !again {
          break;
        }
        attemptsLimit := attemptsLimit - 1;
      }
    }

    /** The build's retry loop. */
    method Retrying(op: Op) returns (resp: Result<Reply, Reply>)
      modifies this
      ensures (resp, log) == Retry(env.remote, old(log), op, Passes(env.build)) && queue == old(queue)
    {
      if env.build == TypeScript {
        resp := RetryWhile(op);
      } else {
        resp := RetryDoWhile(op);
      }
    }

    /** The write in `processIconEntry`: `uploadData`, `updateData`, or none. */
    method WriteData(id: nat, current: Option<Json>, data: Json) returns (r: Result<(), Failure>)
      modifies this
      ensures (r, log) == DataWrite(env, old(log), id, current, data) && queue == old(queue)
    {
      if current.None? {
        var resp := Retrying(UpdateOrCreatePage(DataTitle(id), data));
        r := EditOutcome(resp);
      } else if !JsonEqual(current.value, data) {
        var resp := Retrying(UpdatePage(DataTitle(id), data));
        r := EditOutcome(resp);
      } else {
        r := Ok(());
      }
    }

    /** The checks of the selected images, one `CheckSlot` each. */
    method CheckSlice(slice: seq<Slot>, integrity: map<string, string>) returns (r: Result<(), Failure>)
      requires forall i :: 0 <= i < |slice| ==> slice[i].id !in Ids(queue)
      modifies this
      ensures (r, log) == CheckSlots(env, old(log), slice, integrity) && queue == old(queue)
    {
      r := Ok(());
      for k := 0 to |slice|
        invariant queue == old(queue) && r == Ok(())
        invariant CheckSlots(env, old(log), slice, integrity) == CheckSlots(env, log, slice[k..], integrity)
      {
        assert slice[k..][1..] == slice[k + 1..];
        r := CheckOne(slice[k], integrity);
        if r.Err? {
          return;
        }
        QueueDeleteAbsent(queue, slice[k].id);
        queue := QueueDelete(queue, slice[k].id);
      }
      assert slice[|slice|..] == [];
    }

    /** One image of the second loop. */
    method CheckOne(s: Slot, integrity: map<string, string>) returns (r: Result<(), Failure>)
      modifies this
      ensures (r, log) == CheckSlot(env, old(log), s, integrity) && queue == old(queue)
    {
      var oldIntegrity := if s.filename in integrity then Some(integrity[s.filename]) else None;
      if oldIntegrity.None? {
        var resp := Retrying(Upload(env, s, false));
        if resp.Err? || resp.value.ErrorReply? {
          r := Tolerate(resp);
        } else if !resp.value.UploadReply? {
          r := Err(Threw(resp.value));
        } else if OnlyDuplicate(resp.value) {
          var resp2 := Retrying(Upload(env, s, true));
          r := Tolerate(resp2);
        } else {
          r := Ok(());
        }
      } else if s.sha1 != oldIntegrity.value {
        var resp := Retrying(Upload(env, s, true));
        r := Tolerate(resp);
      } else {
        r := Ok(());
      }
    }

    /** `for (const id of slice.keys()) queue.delete(id)`, the batch being the oldest images. */
    method DeleteSlice(slice: seq<Slot>)
      requires UniqueIds(queue) && |slice| <= |queue|
      requires forall i :: 0 <= i < |slice| ==> slice[i].id == queue[i].0
      modifies this
      ensures queue == old(queue)[|slice|..] && log == old(log)
      ensures forall i :: 0 <= i < |slice| ==> slice[i].id !in Ids(queue)
    {
      ghost var q0 := queue;
      for k := 0 to |slice|
        invariant queue == q0[k..] && log == old(log)
      {
        QueueDeleteHead(q0[k..]);
        assert q0[k..][1..] == q0[k + 1..];
        queue := QueueDelete(queue, slice[k].id);
      }
      forall i | 0 <= i < |slice|
        ensures slice[i].id !in Ids(queue)
      {
        assert forall j :: 0 <= j < |queue| ==> Ids(queue)[j] == q0[|slice| + j].0;
      }
    }

    /** `checkImages(imageQueue)`. */
    method CheckQueue() returns (r: Result<(), Failure>)
      requires UniqueIds(queue)
      modifies this
      ensures (r, State()) == CheckImages(env, old(State()))
    {
      var selected := SelectSlice(queue);
      if selected.Err? {
        return Err(selected.error);
      }
      var slice := selected.value;
      SelectProperties(queue, BATCH);
      DeleteSlice(slice);
      assert Select(old(queue), BATCH) == Ok(slice) && queue == old(queue)[|slice|..];
      var resp := Call(GetImageInfo(Titles(slice)));
      if resp.Err? {
        return Err(Threw(resp.error));
      }
      if !resp.value.ImageInfoReply? {
        return Err(Threw(resp.value));
      }
      r := CheckSlice(slice, Integrity(resp.value.pages));
    }

    /** `processIconEntry(entry)`, with the fetched page and icon given. */
    method ProcessIconEntry(job: Job) returns (r: Result<(), Failure>)
      requires UniqueIds(queue)
      modifies this
      ensures (r, State()) == EntryStep(env, old(State()), job)
      ensures r.Ok? ==> UniqueIds(queue)
    {
      queue := QueueSet(queue, job.id, job.icon);
      r := WriteData(job.id, job.current, job.data);
      if r.Err? {
        return;
      }
      if |queue| >= BATCH {
        ghost var before := State();
        r := CheckQueue();
        if Select(before.queue, BATCH).Ok? {
          CheckImagesBatch(env, before);
        }
      }
    }

    /** The main block, the entries one after another. */
    method RunAll(entries: seq<Json>, fetch: Fetch) returns (r: Result<(), Failure>)
      requires forall i :: 0 <= i < |entries| ==> IsEntry(entries[i])
      requires State() == Sync([], [])
      modifies this
      ensures (r, State()) == Run(env, entries, fetch, binding)
    {
      WithImagePathEntries(entries);
      var iconsData := WithImagePath(entries);
      var jobs := Jobs(iconsData, fetch, binding);
      for k := 0 to |jobs|
        invariant UniqueIds(queue)
        invariant RunFrom(env, State(), jobs[k..]) == Run(env, entries, fetch, binding)
      {
        assert jobs[k..][1..] == jobs[k + 1..];
        r := ProcessIconEntry(jobs[k]);
        if r.Err? {
          return;
        }
      }
      r := CheckQueue();
    }

    /** The JavaScript build's second block: `processIconEntry` on every entry once more, with no `checkImages` after it. */
    method RunAgain(jobs: seq<Job>) returns (r: Result<(), Failure>)
      requires UniqueIds(queue)
      modifies this
      ensures (r, State()) == PassFrom(env, old(State()), jobs)
    {
      for k := 0 to |jobs|
        invariant UniqueIds(queue)
        invariant PassFrom(env, State(), jobs[k..]) == PassFrom(env, old(State()), jobs)
      {
        assert jobs[k..][0] == jobs[k] && jobs[k..][1..] == jobs[k + 1..];
        r := ProcessIconEntry(jobs[k]);
        if r.Err? {
          return;
        }
      }
      r := Ok(());
    }

    /** The whole script: the main block and, in the JavaScript build, the second block after it. */
    method RunScript(entries: seq<Json>, fetch: Fetch, again: Fetch) returns (r: Result<(), Failure>)
      requires forall i :: 0 <= i < |entries| ==> IsEntry(entries[i])
      requires State() == Sync([], [])
      modifies this
      ensures (r, State()) == Script(env, entries, fetch, again, binding)
    {
      r := RunAll(entries, fetch);
      if env.build == TypeScript {
        TypeScriptScriptEmpties(env, entries, fetch, again, binding);
        return;
      }
      WithImagePathEntries(entries);
      ScriptJavaScript(env, entries, fetch, again, binding);
      if r.Err? {
        return;
      }
      RunEmpties(env, entries, fetch, binding);
      r := RunAgain(Jobs(WithImagePath(entries), again, binding));
    }
  }

  /** The first loop of `checkImages`, with `max-- <= 0` as its exit test. */
  method SelectSlice(q: Queue) returns (r: Result<seq<Slot>, Failure>)
    ensures r == Select(q, BATCH)
  {
    var max: int := BATCH;
    var slice: seq<Slot> := [];
    var k := 0;
    PrefixedEmpty(Select(q, BATCH));
    while k < |q|
      invariant 0 <= k <= |q| && k <= BATCH && max == BATCH - k
      invariant Select(q, BATCH) == Prefixed(slice, Select(q[k..], BATCH - k))
    {
      var exhausted := max <= 0;
      max := max - 1;
      if exhausted {
        SelectExhausted(q, k, slice);
        return Ok(slice);
      }
      var (id, icon) := q[k];
      if icon.mime !in MIME_TO_EXT {
        SelectUnknown(q, k, slice);
        return Err(UnexpectedMime(icon.mime));
      }
      var slot := Slot(id, FileName(id, icon.mime), icon.body, icon.sha1);
      SelectAdvance(q, k, slice);
      slice := slice + [slot];
      k := k + 1;
    }
    SelectExhausted(q, k, slice);
    r := Ok(slice);
  }

  /** The selection loop stops with what it has once the queue or the room runs out. */
  lemma SelectExhausted(q: Queue, k: nat, slice: seq<Slot>)
    requires k <= |q| && k <= BATCH && (k == |q| || k == BATCH)
    requires Select(q, BATCH) == Prefixed(slice, Select(q[k..], BATCH - k))
    ensures Select(q, BATCH) == Ok(slice)
  {
    assert Select(q[k..], BATCH - k) == Ok([]);
    assert slice + [] == slice;
  }

  /** An unknown MIME type at the head of what is left throws. */
  lemma SelectUnknown(q: Queue, k: nat, slice: seq<Slot>)
    requires k < |q| && k < BATCH && q[k].1.mime !in MIME_TO_EXT
    requires Select(q, BATCH) == Prefixed(slice, Select(q[k..], BATCH - k))
    ensures Select(q, BATCH) == Err(UnexpectedMime(q[k].1.mime))
  {
    SelectStep(q[k..], BATCH - k);
  }

  /** A known MIME type at the head of what is left joins the selection. */
  lemma SelectAdvance(q: Queue, k: nat, slice: seq<Slot>)
    requires k < |q| && k < BATCH && q[k].1.mime in MIME_TO_EXT
    requires Select(q, BATCH) == Prefixed(slice, Select(q[k..], BATCH - k))
    ensures Select(q, BATCH) == Prefixed(slice + [SlotOf(q[k])], Select(q[k + 1..], BATCH - k - 1))
  {
    SelectStep(q[k..], BATCH - k);
    assert q[k..][1..] == q[k + 1..];
    PrefixedStep(slice, SlotOf(q[k]), Select(q[k + 1..], BATCH - k - 1));
  }

  /** One pass of the selection loop over a non-empty queue with room left. */
  lemma SelectStep(q: Queue, max: nat)
    requires q != [] && max > 0
    ensures q[0].1.mime !in MIME_TO_EXT ==> Select(q, max) == Err(UnexpectedMime(q[0].1.mime))
    ensures q[0].1.mime in MIME_TO_EXT ==> Select(q, max) == Prefixed([SlotOf(q[0])], Select(q[1..], max - 1))
  {
  }

  lemma PrefixedEmpty(rest: Result<seq<Slot>, Failure>)
    ensures Prefixed([], rest) == rest
  {
    if rest.Ok? {
      assert [] + rest.value == rest.value;
    }
  }

  lemma PrefixedStep(slice: seq<Slot>, slot: Slot, rest: Result<seq<Slot>, Failure>)
    ensures Prefixed(slice, Prefixed([slot], rest)) == Prefixed(slice + [slot], rest)
  {
    if rest.Ok? {
      assert slice + ([slot] + rest.value) == (slice + [slot]) + rest.value;
    }
  }

  /** The selection so far in front of the selection of the rest. */
  function Prefixed(slice: seq<Slot>, rest: Result<seq<Slot>, Failure>): Result<seq<Slot>, Failure> {
    match rest
    case Ok(more) => Ok(slice + more)
    case Err(e) => Err(e)
  }
}
