/**
 * The hash ledger of `src/PNGLock.ts` and its PNG carrier.
 *
 * A ledger maps an icon id to the hex text of its MD5 digest; a lock holds two of them,
 * `data` and `image`. `toBuffer` packs each non-empty ledger into 20-byte records (the id
 * as an unsigned 32-bit little-endian integer, then the 16 digest bytes) in ascending id
 * order, and stores the payload as a `tEXt` chunk (section 11.3.4.3 of the PNG
 * Specification, Second Edition) with keyword `data` or `image`, immediately before the
 * template's last chunk, `IEND` (section 11.2.5). `fromBuffer` reads the first such
 * chunk of each keyword back.
 *
 * The chunk libraries (CRCs, chunk framing, `tEXt` keyword/text framing) and base64 are
 * bijections this model takes as given: a `Chunk` carries its name, its keyword and its
 * payload bytes directly.
 */
module PngLedger {
  import opened Wrappers
  import opened Bytes
  import opened SeqFacts

  const MD5_BYTE_LENGTH: nat := 16
  const UINT32_BYTE_LENGTH: nat := 4
  const RECORD_LENGTH: nat := 20

  /** A PNG chunk after extraction; for a `tEXt` chunk, its keyword and decoded text. */
  datatype Chunk = Chunk(name: string, keyword: string, payload: seq<byte>)

  /** `text.encode(keyword, base64(payload))`. */
  function TextChunk(keyword: string, payload: seq<byte>): Chunk {
    Chunk("tEXt", keyword, payload)
  }

  /** Icon id to digest text (`Map<number, string>`). */
  type Ledger = map<nat, string>

  /** The `RangeError`s the buffer operations raise. */
  datatype LockError =
    | IdOutOfRange(id: nat)        // `writeUInt32LE` on an id of 2^32 or more
    | DigestOverflow(id: nat)      // `buff.set(hash, index)` past the end of the buffer
    | TruncatedRecord(offset: nat) // `readUInt32LE` with fewer than 4 bytes left

  /** What `createHash("md5").digest("hex")` produces: 32 lowercase hex digits. */
  predicate IsDigest(s: string) {
    |s| == 2 * MD5_BYTE_LENGTH && IsLowerHex(s)
  }

  // ---------------------------------------------------------------- sorted ids

  ghost function MinId(s: set<nat>): (m: nat)
    requires s != {}
    ensures m in s && forall y :: y in s ==> m <= y
    decreases |s|
  {
    var x :| x in s;
    if s == {x} then
      assert forall y :: y in s ==> y == x;
      x
    else
      var m := MinId(s - {x});
      assert forall y :: y in s ==> y == x || y in s - {x};
      if m < x then m else x
  }

  /** `Array.from(map.keys()).sort((a, b) => a - b)`. */
  ghost function SortedIds(s: set<nat>): seq<nat>
    decreases |s|
  {
    if s == {} then [] else [MinId(s)] + SortedIds(s - {MinId(s)})
  }

  /** The sorted ids are exactly the ledger's ids, each once, in strictly ascending order. */
  lemma SortedIdsProperties(s: set<nat>)
    ensures |SortedIds(s)| == |s|
    ensures forall x :: x in SortedIds(s) <==> x in s
    ensures forall i, j :: 0 <= i < j < |SortedIds(s)| ==> SortedIds(s)[i] < SortedIds(s)[j]
  {
    SortedIdsLength(s);
    SortedIdsMembers(s);
    SortedIdsAscending(s);
  }

  lemma {:induction false} SortedIdsLength(s: set<nat>)
    ensures |SortedIds(s)| == |s|
    decreases |s|
  {
    if s != {} {
      SortedIdsLength(s - {MinId(s)});
    }
  }

  lemma {:induction false} SortedIdsMembers(s: set<nat>)
    ensures forall x :: x in SortedIds(s) <==> x in s
    decreases |s|
  {
    if s != {} {
      var m := MinId(s);
      SortedIdsMembers(s - {m});
      assert SortedIds(s) == [m] + SortedIds(s - {m});
    }
  }

  lemma {:induction false} SortedIdsAscending(s: set<nat>)
    ensures forall i, j :: 0 <= i < j < |SortedIds(s)| ==> SortedIds(s)[i] < SortedIds(s)[j]
    decreases |s|
  {
    if s != {} {
      var m := MinId(s);
      var rest := SortedIds(s - {m});
      SortedIdsAscending(s - {m});
      SortedIdsMembers(s - {m});
      var r := SortedIds(s);
      assert r == [m] + rest;
      forall i, j | 0 <= i < j < |r| ensures r[i] < r[j] {
        if i == 0 {
          assert r[j] == rest[j - 1] && rest[j - 1] in s - {m};
        } else {
          assert r[i] == rest[i - 1] && r[j] == rest[j - 1];
        }
      }
    }
  }

  lemma MinIdUnique(s: set<nat>, x: nat)
    requires x in s && forall y :: y in s ==> x <= y
    ensures x == MinId(s)
  {
  }

  /** The ids of a ledger in ascending order. */
  method SortIds(s: set<nat>) returns (r: seq<nat>)
    ensures r == SortedIds(s)
  {
    r := [];
    var rest := s;
    while rest != {}
      invariant r + SortedIds(rest) == SortedIds(s)
      decreases |rest|
    {
      ghost var m := MinId(rest);
      var x :| x in rest && forall y :: y in rest ==> x <= y;
      MinIdUnique(rest, x);
      assert r + SortedIds(rest) == (r + [x]) + SortedIds(rest - {x});
      r, rest := r + [x], rest - {x};
    }
    assert r + [] == r;
  }

  // ---------------------------------------------------------------- packing

  function Zeros(n: nat): (z: seq<byte>)
    ensures |z| == n && forall i :: 0 <= i < n ==> z[i] == 0
  {
    seq(n, _ => 0)
  }

  /** Typed-array `set(bytes, at)`: the bytes replace those at `at`, the rest stay. */
  function Overwrite(buf: seq<byte>, at: nat, bytes: seq<byte>): (r: seq<byte>)
    requires at + |bytes| <= |buf|
    ensures |r| == |buf|
  {
    buf[..at] + bytes + buf[at + |bytes|..]
  }

  lemma OverwriteIndex(buf: seq<byte>, at: nat, bytes: seq<byte>)
    requires at + |bytes| <= |buf|
    ensures forall i :: 0 <= i < |buf| ==>
      Overwrite(buf, at, bytes)[i] == if at <= i < at + |bytes| then bytes[i - at] else buf[i]
  {
  }

  /**
   * The packing loop of `toBuffer` over `ids`, with the running `index`: write the id,
   * decode the digest text and copy its bytes after the id, advance by one record.
   */
  function PackFrom(buf: seq<byte>, ids: seq<nat>, m: Ledger, index: nat): Result<seq<byte>, LockError>
    requires forall i :: 0 <= i < |ids| ==> ids[i] in m
    requires index + RECORD_LENGTH * |ids| <= |buf|
    decreases |ids|
  {
    if ids == [] then Ok(buf)
    else
      var id := ids[0];
      if id >= UINT32_LIMIT then Err(IdOutOfRange(id))
      else
        var withId := Overwrite(buf, index, LE32(id));
        var hash := DecodeHex(m[id]);
        if index + UINT32_BYTE_LENGTH + |hash| > |buf| then Err(DigestOverflow(id))
        else PackFrom(Overwrite(withId, index + UINT32_BYTE_LENGTH, hash), ids[1..], m, index + RECORD_LENGTH)
  }

  /** The payload `toBuffer` builds for one ledger: a zero-filled buffer of one record per id, packed in id order. */
  ghost function PackLedger(m: Ledger): Result<seq<byte>, LockError> {
    AllIn(m);
    PackFrom(Zeros(RECORD_LENGTH * |m|), SortedIds(m.Keys), m, 0)
  }

  method WriteUInt32LE(buff: array<byte>, id: nat, at: nat)
    requires id < UINT32_LIMIT && at + UINT32_BYTE_LENGTH <= buff.Length
    modifies buff
    ensures buff[..] == Overwrite(old(buff[..]), at, LE32(id))
  {
    var b := LE32(id);
    OverwriteIndex(buff[..], at, b);
    buff[at] := b[0];
    buff[at + 1] := b[1];
    buff[at + 2] := b[2];
    buff[at + 3] := b[3];
  }

  method SetBytes(buff: array<byte>, bytes: seq<byte>, at: nat)
    requires at + |bytes| <= buff.Length
    modifies buff
    ensures buff[..] == Overwrite(old(buff[..]), at, bytes)
  {
    var j := 0;
    while j < |bytes|
      invariant 0 <= j <= |bytes|
      invariant buff[..] == Overwrite(old(buff[..]), at, bytes[..j])
    {
      OverwriteIndex(old(buff[..]), at, bytes[..j]);
      OverwriteIndex(old(buff[..]), at, bytes[..j + 1]);
      buff[at + j] := bytes[j];
      j := j + 1;
    }
    assert bytes[..j] == bytes;
  }

  /** One record of the packing loop, as the loop body performs it. */
  lemma PackStep(buf: seq<byte>, ids: seq<nat>, m: Ledger, index: nat)
    requires forall i :: 0 <= i < |ids| ==> ids[i] in m
    requires index + RECORD_LENGTH * |ids| <= |buf| && ids != [] && ids[0] < UINT32_LIMIT
    ensures var withId := Overwrite(buf, index, LE32(ids[0]));
      var hash := DecodeHex(m[ids[0]]);
      PackFrom(buf, ids, m, index) ==
        if index + UINT32_BYTE_LENGTH + |hash| > |buf| then Err(DigestOverflow(ids[0]))
        else PackFrom(Overwrite(withId, index + UINT32_BYTE_LENGTH, hash), ids[1..], m, index + RECORD_LENGTH)
  {
  }

  lemma AllIn(m: Ledger)
    ensures |SortedIds(m.Keys)| == |m|
    ensures forall i :: 0 <= i < |SortedIds(m.Keys)| ==> SortedIds(m.Keys)[i] in m
  {
    SortedIdsLength(m.Keys);
    SortedIdsMembers(m.Keys);
  }

  /** One pass of the packing loop: the record of `ids[0]` at `index`. */
  method PackRecord(buff: array<byte>, ids: seq<nat>, m: Ledger, index: nat) returns (err: Option<LockError>)
    requires forall i :: 0 <= i < |ids| ==> ids[i] in m
    requires ids != [] && index + RECORD_LENGTH * |ids| <= buff.Length
    modifies buff
    ensures err.Some? ==> PackFrom(old(buff[..]), ids, m, index) == Err(err.value)
    ensures err.None? ==> PackFrom(old(buff[..]), ids, m, index) == PackFrom(buff[..], ids[1..], m, index + RECORD_LENGTH)
  {
    var id := ids[0];
    if id >= UINT32_LIMIT {
      return Some(IdOutOfRange(id));
    }
    ghost var before := buff[..];
    PackStep(before, ids, m, index);
    WriteUInt32LE(buff, id, index);
    ghost var withId := buff[..];
    var hash := DecodeHex(m[id]);
    if index + UINT32_BYTE_LENGTH + |hash| > buff.Length {
      return Some(DigestOverflow(id));
    }
    SetBytes(buff, hash, index + UINT32_BYTE_LENGTH);
    return None;
  }

  /** The packing half of `toBuffer` for one ledger (`Buffer.alloc`, then the `for` loop). */
  method Pack(m: Ledger) returns (r: Result<seq<byte>, LockError>)
    ensures r == PackLedger(m)
  {
    var ids := SortIds(m.Keys);
    AllIn(m);
    var buff := new byte[RECORD_LENGTH * |m|](_ => 0);
    assert buff[..] == Zeros(RECORD_LENGTH * |m|);
    var index := 0;
    var rest := ids;
    while rest != []
      invariant forall i :: 0 <= i < |rest| ==> rest[i] in m
      invariant index + RECORD_LENGTH * |rest| == buff.Length
      invariant PackFrom(buff[..], rest, m, index) == PackLedger(m)
      decreases |rest|
    {
      var err := PackRecord(buff, rest, m, index);
      if err.Some? {
        return Err(err.value);
      }
      index := index + RECORD_LENGTH;
      rest := rest[1..];
    }
    return Ok(buff[..]);
  }

  /** The ledger chunk list for one keyword: no chunk for an empty ledger. */
  ghost function LedgerChunks(keyword: string, m: Ledger): Result<seq<Chunk>, LockError> {
    if |m| == 0 then Ok([])
    else
      var p := PackLedger(m);
      if p.Err? then Err(p.error) else Ok([TextChunk(keyword, p.value)])
  }

  /** `toBuffer` on a template chunk list: the ledger chunks go between the template's body and its last chunk. */
  ghost function WriteLedger(template: seq<Chunk>, data: Ledger, image: Ledger): Result<seq<Chunk>, LockError>
    requires |template| > 0
  {
    var d := LedgerChunks("data", data);
    if d.Err? then Err(d.error)
    else
      var i := LedgerChunks("image", image);
      if i.Err? then Err(i.error)
      else Ok(template[..|template| - 1] + d.value + i.value + [template[|template| - 1]])
  }

  // ---------------------------------------------------------------- unpacking

  function Min(a: nat, b: nat): nat {
    if a <= b then a else b
  }

  /**
   * The reading loop of `fromBuffer` on a payload: each record sets its id to the hex
   * text of the (at most 16) bytes after the id; a later record for the same id wins.
   */
  function UnpackFrom(buf: seq<byte>, acc: Ledger): Result<Ledger, LockError>
    decreases |buf|
  {
    if buf == [] then Ok(acc)
    else if |buf| < UINT32_BYTE_LENGTH then Err(TruncatedRecord(|buf|))
    else
      var id := ReadLE32(buf[..UINT32_BYTE_LENGTH]);
      var hash := EncodeHex(buf[UINT32_BYTE_LENGTH..Min(RECORD_LENGTH, |buf|)]);
      if |buf| <= RECORD_LENGTH then Ok(acc[id := hash])
      else UnpackFrom(buf[RECORD_LENGTH..], acc[id := hash])
  }

  /** The `while (buff.byteLength > index)` loop of `fromBuffer`. */
  method Unpack(buff: seq<byte>) returns (r: Result<Ledger, LockError>)
    ensures r == UnpackFrom(buff, map[])
  {
    assert RECORD_LENGTH == 20 && UINT32_BYTE_LENGTH == 4 && MD5_BYTE_LENGTH == 16;
    var acc: Ledger := map[];
    var index := 0;
    while |buff| > index
      invariant index <= |buff| ==> UnpackFrom(buff[index..], acc) == UnpackFrom(buff, map[])
      invariant index > |buff| ==> Ok(acc) == UnpackFrom(buff, map[])
      decreases |buff| - index
    {
      if index + UINT32_BYTE_LENGTH > |buff| {
        return Err(TruncatedRecord(|buff| - index));
      }
      var rest := buff[index..];
      assert rest[..UINT32_BYTE_LENGTH] == buff[index..index + UINT32_BYTE_LENGTH];
      var id := ReadLE32(buff[index..index + UINT32_BYTE_LENGTH]);
      index := index + UINT32_BYTE_LENGTH;
      var end := Min(index + MD5_BYTE_LENGTH, |buff|);
      assert rest[UINT32_BYTE_LENGTH..Min(RECORD_LENGTH, |rest|)] == buff[index..end];
      var hash := EncodeHex(buff[index..end]);
      index := index + MD5_BYTE_LENGTH;
      acc := acc[id := hash];
      if index <= |buff| {
        assert rest[RECORD_LENGTH..] == buff[index..];
      }
    }
    if index <= |buff| {
      assert buff[index..] == [];
    }
    r := Ok(acc);
  }

  /** The payload of the first `tEXt` chunk with the keyword (`payload.filter(...)[0]`). */
  function FirstText(chunks: seq<Chunk>, keyword: string): (r: Option<seq<byte>>)
    ensures r.Some? <==> exists i :: 0 <= i < |chunks| && chunks[i].name == "tEXt" && chunks[i].keyword == keyword
  {
    if chunks == [] then None
    else if chunks[0].name == "tEXt" && chunks[0].keyword == keyword then Some(chunks[0].payload)
    else
      var r := FirstText(chunks[1..], keyword);
      assert r.Some? <==> exists i :: 0 < i < |chunks| && chunks[i].name == "tEXt" && chunks[i].keyword == keyword by {
        if r.Some? {
          var j :| 0 <= j < |chunks[1..]| && chunks[1..][j].name == "tEXt" && chunks[1..][j].keyword == keyword;
          assert chunks[j + 1] == chunks[1..][j];
        }
        if exists i :: 0 < i < |chunks| && chunks[i].name == "tEXt" && chunks[i].keyword == keyword {
          var i :| 0 < i < |chunks| && chunks[i].name == "tEXt" && chunks[i].keyword == keyword;
          assert chunks[1..][i - 1] == chunks[i];
        }
      }
      r
  }

  /** One ledger of `fromBuffer`: empty when no chunk carries the keyword. */
  function ReadOne(chunks: seq<Chunk>, keyword: string): Result<Ledger, LockError> {
    var p := FirstText(chunks, keyword);
    if p.None? then Ok(map[]) else UnpackFrom(p.value, map[])
  }

  /** `fromBuffer`: the `data` ledger, then the `image` ledger. */
  function ReadLedger(chunks: seq<Chunk>): Result<(Ledger, Ledger), LockError> {
    var d := ReadOne(chunks, "data");
    if d.Err? then Err(d.error)
    else
      var i := ReadOne(chunks, "image");
      if i.Err? then Err(i.error) else Ok((d.value, i.value))
  }

  // ---------------------------------------------------------------- properties of the ledger

  /** Ids that fit `writeUInt32LE` and values that are MD5 digests: what `sync` stores. */
  ghost predicate WellFormedLedger(m: Ledger) {
    forall id :: id in m ==> id < UINT32_LIMIT && IsDigest(m[id])
  }

  /** The 16 digest bytes of a digest text. */
  lemma DigestBytes(s: string)
    requires IsDigest(s)
    ensures |DecodeHex(s)| == MD5_BYTE_LENGTH && EncodeHex(DecodeHex(s)) == s
  {
    EncodeDecodeHex(s);
  }

  /** One 20-byte record: the id, then the digest bytes, zero-padded to 16. */
  function Record(id: nat, digest: string): (r: seq<byte>)
    requires id < UINT32_LIMIT && |DecodeHex(digest)| <= MD5_BYTE_LENGTH
    ensures |r| == RECORD_LENGTH
  {
    var h := DecodeHex(digest);
    LE32(id) + h + Zeros(MD5_BYTE_LENGTH - |h|)
  }

  /** The records of `ids`, one after the other. */
  function Records(ids: seq<nat>, m: Ledger): (r: seq<byte>)
    requires forall i :: 0 <= i < |ids| ==> ids[i] in m
    requires forall i :: 0 <= i < |ids| ==> ids[i] < UINT32_LIMIT && |DecodeHex(m[ids[i]])| <= MD5_BYTE_LENGTH
    ensures |r| == RECORD_LENGTH * |ids|
  {
    if ids == [] then [] else Record(ids[0], m[ids[0]]) + Records(ids[1..], m)
  }

  /** Ids that fit `writeUInt32LE` and digest texts of at most 16 bytes. */
  ghost predicate Packable(m: Ledger) {
    forall id :: id in m ==> id < UINT32_LIMIT && |DecodeHex(m[id])| <= MD5_BYTE_LENGTH
  }

  /** The records of a ledger in ascending id order. */
  ghost function LedgerRecords(m: Ledger): (r: seq<byte>)
    requires Packable(m)
    ensures |r| == RECORD_LENGTH * |m|
  {
    AllIn(m);
    Records(SortedIds(m.Keys), m)
  }

  lemma ZerosAdd(a: nat, b: nat)
    ensures Zeros(a + b) == Zeros(a) + Zeros(b)
  {
  }

  /** Writing bytes at the end of a prefix of a zero buffer. */
  lemma OverwriteZeros(p: seq<byte>, k: nat, bytes: seq<byte>)
    requires |bytes| <= k
    ensures Overwrite(p + Zeros(k), |p|, bytes) == p + bytes + Zeros(k - |bytes|)
  {
    var buf := p + Zeros(k);
    assert buf[..|p|] == p;
    assert buf[|p| + |bytes|..] == Zeros(k - |bytes|);
  }

  /** One record written onto a zero tail. */
  lemma RecordStep(p: seq<byte>, id: nat, digest: string, tail: nat)
    requires id < UINT32_LIMIT && |DecodeHex(digest)| <= MD5_BYTE_LENGTH
    ensures p + Zeros(RECORD_LENGTH + tail) == p + Zeros(UINT32_BYTE_LENGTH + MD5_BYTE_LENGTH + tail)
    ensures Overwrite(Overwrite(p + Zeros(RECORD_LENGTH + tail), |p|, LE32(id)), |p| + UINT32_BYTE_LENGTH, DecodeHex(digest))
      == p + Record(id, digest) + Zeros(tail)
  {
    var h := DecodeHex(digest);
    var k := RECORD_LENGTH + tail;
    OverwriteZeros(p, k, LE32(id));
    var q := p + LE32(id);
    OverwriteZeros(q, k - UINT32_BYTE_LENGTH, h);
    ZerosAdd(MD5_BYTE_LENGTH - |h|, tail);
    assert q + h + Zeros(k - UINT32_BYTE_LENGTH - |h|) == p + Record(id, digest) + Zeros(tail);
  }

  /** The first pass of the packing loop on a zero tail writes the first record. */
  lemma PackFromFirst(p: seq<byte>, ids: seq<nat>, m: Ledger)
    requires forall i :: 0 <= i < |ids| ==> ids[i] in m
    requires ids != [] && ids[0] < UINT32_LIMIT && |DecodeHex(m[ids[0]])| <= MD5_BYTE_LENGTH
    ensures PackFrom(p + Zeros(RECORD_LENGTH * |ids|), ids, m, |p|)
      == PackFrom(p + Record(ids[0], m[ids[0]]) + Zeros(RECORD_LENGTH * (|ids| - 1)), ids[1..], m, |p| + RECORD_LENGTH)
  {
    var tail := RECORD_LENGTH * (|ids| - 1);
    assert RECORD_LENGTH * |ids| == RECORD_LENGTH + tail;
    RecordStep(p, ids[0], m[ids[0]], tail);
    PackStep(p + Zeros(RECORD_LENGTH * |ids|), ids, m, |p|);
  }

  /** Packing onto a zero tail appends exactly the records. */
  lemma {:induction false} PackFromRecords(p: seq<byte>, ids: seq<nat>, m: Ledger)
    requires forall i :: 0 <= i < |ids| ==> ids[i] in m
    requires forall i :: 0 <= i < |ids| ==> ids[i] < UINT32_LIMIT && |DecodeHex(m[ids[i]])| <= MD5_BYTE_LENGTH
    ensures PackFrom(p + Zeros(RECORD_LENGTH * |ids|), ids, m, |p|) == Ok(p + Records(ids, m))
    decreases |ids|
  {
    if ids == [] {
      assert p + Zeros(0) == p;
    } else {
      var r := Record(ids[0], m[ids[0]]);
      var p' := p + r;
      var rest := ids[1..];
      assert PackFrom(p + Zeros(RECORD_LENGTH * |ids|), ids, m, |p|)
        == PackFrom(p' + Zeros(RECORD_LENGTH * |rest|), rest, m, |p'|) by {
        PackFromFirst(p, ids, m);
      }
      assert forall i :: 0 <= i < |rest| ==> rest[i] == ids[i + 1];
      PackFromRecords(p', rest, m);
      assert Records(ids, m) == r + Records(rest, m);
      AppendAssoc(p, r, Records(rest, m));
    }
  }

  /**
   * With ids below 2^32 and digests of at most 16 bytes, packing succeeds and the
   * payload is one record per id in ascending id order, 20 bytes each.
   */
  lemma PackLedgerRecords(m: Ledger)
    requires Packable(m)
    ensures PackLedger(m) == Ok(LedgerRecords(m))
    ensures |PackLedger(m).value| == RECORD_LENGTH * |m|
  {
    AllIn(m);
    var ids: seq<nat> := SortedIds(m.Keys);
    assert forall i: nat :: 0 <= i < |ids| ==> ids[i] < UINT32_LIMIT && |DecodeHex(m[ids[i]])| <= MD5_BYTE_LENGTH;
    PackFromRecords([], ids, m);
    assert [] + Zeros(RECORD_LENGTH * |ids|) == Zeros(RECORD_LENGTH * |m|);
    assert [] + Records(ids, m) == LedgerRecords(m);
  }

  /** A successful pack never met an id outside the 32-bit range. */
  lemma {:induction false} PackFromIdsInRange(buf: seq<byte>, ids: seq<nat>, m: Ledger, index: nat)
    requires forall i :: 0 <= i < |ids| ==> ids[i] in m
    requires index + RECORD_LENGTH * |ids| <= |buf|
    ensures PackFrom(buf, ids, m, index).Ok? ==> forall i :: 0 <= i < |ids| ==> ids[i] < UINT32_LIMIT
    decreases |ids|
  {
    if ids != [] && ids[0] < UINT32_LIMIT {
      var withId := Overwrite(buf, index, LE32(ids[0]));
      var hash := DecodeHex(m[ids[0]]);
      if index + UINT32_BYTE_LENGTH + |hash| <= |buf| {
        var next := Overwrite(withId, index + UINT32_BYTE_LENGTH, hash);
        PackStep(buf, ids, m, index);
        PackFromIdsInRange(next, ids[1..], m, index + RECORD_LENGTH);
        if PackFrom(buf, ids, m, index).Ok? {
          forall i | 0 < i < |ids| ensures ids[i] < UINT32_LIMIT {
            assert ids[i] == ids[1..][i - 1];
          }
        }
      }
    }
  }

  /** `toBuffer` fails whenever some id does not fit an unsigned 32-bit integer. */
  lemma PackLedgerIdsInRange(m: Ledger)
    ensures PackLedger(m).Ok? ==> forall id :: id in m ==> id < UINT32_LIMIT
  {
    AllIn(m);
    SortedIdsProperties(m.Keys);
    PackFromIdsInRange(Zeros(RECORD_LENGTH * |m|), SortedIds(m.Keys), m, 0);
  }

  /** The `k`-th record of a payload. */
  lemma {:induction false} RecordAt(ids: seq<nat>, m: Ledger, k: nat)
    requires forall i :: 0 <= i < |ids| ==> ids[i] in m
    requires forall i :: 0 <= i < |ids| ==> ids[i] < UINT32_LIMIT && |DecodeHex(m[ids[i]])| <= MD5_BYTE_LENGTH
    requires k < |ids|
    ensures Records(ids, m)[RECORD_LENGTH * k..RECORD_LENGTH * k + RECORD_LENGTH] == Record(ids[k], m[ids[k]])
  {
    var r := Records(ids, m);
    var head := Record(ids[0], m[ids[0]]);
    var rest := Records(ids[1..], m);
    assert r == head + rest;
    if k == 0 {
      assert r[..RECORD_LENGTH] == head;
    } else {
      RecordAt(ids[1..], m, k - 1);
      SliceOfSecond(head, rest, RECORD_LENGTH * k, RECORD_LENGTH * k + RECORD_LENGTH);
    }
  }

  /** The id read back from the `k`-th record is the `k`-th id. */
  lemma RecordId(ids: seq<nat>, m: Ledger, k: nat)
    requires forall i :: 0 <= i < |ids| ==> ids[i] in m
    requires forall i :: 0 <= i < |ids| ==> ids[i] < UINT32_LIMIT && |DecodeHex(m[ids[i]])| <= MD5_BYTE_LENGTH
    requires k < |ids|
    ensures ReadLE32(Records(ids, m)[RECORD_LENGTH * k..RECORD_LENGTH * k + 4]) == ids[k]
  {
    var p := Records(ids, m);
    var rec := Record(ids[k], m[ids[k]]);
    RecordAt(ids, m, k);
    assert p[RECORD_LENGTH * k..RECORD_LENGTH * k + 4] == rec[..4];
    assert rec[..4] == LE32(ids[k]);
    LE32RoundTrip(ids[k]);
  }

  /** The ids read back from the records of a payload are its ledger's ids in strictly ascending order. */
  lemma RecordsAscending(m: Ledger)
    requires Packable(m)
    ensures var p := LedgerRecords(m);
      forall i, j :: 0 <= i < j < |m| ==>
        ReadLE32(p[RECORD_LENGTH * i..RECORD_LENGTH * i + 4]) < ReadLE32(p[RECORD_LENGTH * j..RECORD_LENGTH * j + 4])
  {
    var p := LedgerRecords(m);
    forall i, j | 0 <= i < j < |m|
      ensures ReadLE32(p[RECORD_LENGTH * i..RECORD_LENGTH * i + 4]) < ReadLE32(p[RECORD_LENGTH * j..RECORD_LENGTH * j + 4])
    {
      RecordIdsAscend(m, i, j);
    }
  }

  lemma RecordIdsAscend(m: Ledger, i: nat, j: nat)
    requires Packable(m) && i < j < |m|
    ensures var p := LedgerRecords(m);
      ReadLE32(p[RECORD_LENGTH * i..RECORD_LENGTH * i + 4]) < ReadLE32(p[RECORD_LENGTH * j..RECORD_LENGTH * j + 4])
  {
    AllIn(m);
    SortedIdsAscending(m.Keys);
    var ids: seq<nat> := SortedIds(m.Keys);
    assert forall k :: 0 <= k < |ids| ==> ids[k] < UINT32_LIMIT && |DecodeHex(m[ids[k]])| <= MD5_BYTE_LENGTH;
    RecordId(ids, m, i);
    RecordId(ids, m, j);
  }

  /** Read-back order: later records overwrite earlier ones with the same id. */
  ghost function Updates(acc: Ledger, ids: seq<nat>, m: Ledger): Ledger
    requires forall i :: 0 <= i < |ids| ==> ids[i] in m
    decreases |ids|
  {
    if ids == [] then acc else Updates(acc[ids[0] := m[ids[0]]], ids[1..], m)
  }

  /** Applying the records of `ids` sets exactly those keys, to their values in `m`. */
  lemma {:induction false} UpdatesSpec(acc: Ledger, ids: seq<nat>, m: Ledger)
    requires forall i :: 0 <= i < |ids| ==> ids[i] in m
    ensures forall k :: k in Updates(acc, ids, m) <==> k in acc || k in ids
    ensures forall k :: k in ids ==> Updates(acc, ids, m)[k] == m[k]
    ensures forall k :: k in acc && k !in ids ==> Updates(acc, ids, m)[k] == acc[k]
    decreases |ids|
  {
    if ids != [] {
      UpdatesSpec(acc[ids[0] := m[ids[0]]], ids[1..], m);
      assert forall k :: k in ids <==> k == ids[0] || k in ids[1..];
    }
  }

  /** Reading the records of well-formed entries applies them to the accumulator. */
  lemma {:induction false} UnpackRecords(ids: seq<nat>, m: Ledger, acc: Ledger)
    requires forall i :: 0 <= i < |ids| ==> ids[i] in m
    requires forall i :: 0 <= i < |ids| ==> ids[i] < UINT32_LIMIT && IsDigest(m[ids[i]])
    ensures forall i :: 0 <= i < |ids| ==> |DecodeHex(m[ids[i]])| <= MD5_BYTE_LENGTH
    ensures UnpackFrom(Records(ids, m), acc) == Ok(Updates(acc, ids, m))
    decreases |ids|
  {
    forall i | 0 <= i < |ids| ensures |DecodeHex(m[ids[i]])| <= MD5_BYTE_LENGTH {
      DigestBytes(m[ids[i]]);
    }
    if ids != [] {
      var id := ids[0];
      DigestBytes(m[id]);
      var h := DecodeHex(m[id]);
      var rec := Record(id, m[id]);
      assert rec == LE32(id) + h;
      var rest := Records(ids[1..], m);
      var buf := rec + rest;
      assert buf == Records(ids, m);
      assert buf[..UINT32_BYTE_LENGTH] == LE32(id);
      LE32RoundTrip(id);
      assert buf[UINT32_BYTE_LENGTH..Min(RECORD_LENGTH, |buf|)] == h;
      var acc' := acc[id := m[id]];
      if |buf| <= RECORD_LENGTH {
        assert |ids[1..]| == 0;
        assert UnpackFrom(buf, acc) == Ok(acc');
      } else {
        assert buf[RECORD_LENGTH..] == rest;
        UnpackRecords(ids[1..], m, acc');
      }
    }
  }

  lemma WellFormedPackable(m: Ledger)
    requires WellFormedLedger(m)
    ensures Packable(m)
  {
    forall id | id in m ensures |DecodeHex(m[id])| <= MD5_BYTE_LENGTH {
      DigestBytes(m[id]);
    }
  }

  /** Applying the records of all the ids of a ledger onto nothing rebuilds the ledger. */
  lemma UpdatesAll(ids: seq<nat>, m: Ledger)
    requires forall i :: 0 <= i < |ids| ==> ids[i] in m
    requires forall id :: id in m ==> id in ids
    ensures Updates(map[], ids, m) == m
  {
    UpdatesSpec(map[], ids, m);
    var u := Updates(map[], ids, m);
    assert u.Keys == m.Keys;
    assert forall k :: k in u ==> u[k] == m[k];
  }

  /** A ledger of well-formed entries survives packing and reading back unchanged. */
  lemma UnpackPackLedger(m: Ledger)
    requires WellFormedLedger(m)
    ensures PackLedger(m).Ok? && UnpackFrom(PackLedger(m).value, map[]) == Ok(m)
  {
    AllIn(m);
    var ids: seq<nat> := SortedIds(m.Keys);
    assert forall i: nat :: 0 <= i < |ids| ==> ids[i] < UINT32_LIMIT && IsDigest(m[ids[i]]);
    UnpackRecords(ids, m, map[]);
    WellFormedPackable(m);
    PackLedgerRecords(m);
    assert LedgerRecords(m) == Records(ids, m);
    SortedIdsProperties(m.Keys);
    UpdatesAll(ids, m);
  }

  /** `payload.filter(...)[0]` looks at the front part first. */
  lemma {:induction false} FirstTextAppend(a: seq<Chunk>, b: seq<Chunk>, keyword: string)
    ensures FirstText(a + b, keyword) == if FirstText(a, keyword).Some? then FirstText(a, keyword) else FirstText(b, keyword)
  {
    if a != [] {
      assert (a + b)[1..] == a[1..] + b;
      FirstTextAppend(a[1..], b, keyword);
    } else {
      assert a + b == b;
    }
  }

  /** No chunk of the list is a `tEXt` chunk with one of the ledger keywords. */
  predicate NoLedgerChunks(chunks: seq<Chunk>) {
    forall i :: 0 <= i < |chunks| ==> !(chunks[i].name == "tEXt" && (chunks[i].keyword == "data" || chunks[i].keyword == "image"))
  }

  /**
   * The chunk list `toBuffer` writes: the template's body unchanged, then the `data`
   * chunk exactly when the data ledger is non-empty, then the `image` chunk exactly when
   * the image ledger is non-empty, and the template's last chunk (`IEND`) still last.
   */
  lemma WriteLedgerLayout(template: seq<Chunk>, data: Ledger, image: Ledger)
    requires |template| > 0
    ensures var r := WriteLedger(template, data, image);
      r.Ok? ==>
        var n := |template| - 1;
        var extra := (if |data| > 0 then 1 else 0) + (if |image| > 0 then 1 else 0);
        && |r.value| == |template| + extra
        && r.value[..n] == template[..n]
        && r.value[|r.value| - 1] == template[n]
        && (forall i :: n <= i < n + extra ==> r.value[i].name == "tEXt")
        && (|data| > 0 ==> r.value[n].keyword == "data")
        && (|image| > 0 ==> r.value[n + extra - 1].keyword == "image")
  {
  }

  /** A keyword absent from both ends of a chunk list is looked up in its middle. */
  lemma FirstTextMiddle(body: seq<Chunk>, mid: seq<Chunk>, last: seq<Chunk>, keyword: string)
    requires FirstText(body, keyword).None? && FirstText(last, keyword).None?
    ensures FirstText(body + mid + last, keyword) == FirstText(mid, keyword)
  {
    assert body + mid + last == body + (mid + last);
    FirstTextAppend(body, mid + last, keyword);
    FirstTextAppend(mid, last, keyword);
  }

  /** The chunks `toBuffer` writes for a well-formed ledger. */
  lemma LedgerChunkOf(keyword: string, m: Ledger) returns (c: seq<Chunk>)
    requires WellFormedLedger(m)
    ensures LedgerChunks(keyword, m) == Ok(c)
    ensures forall i :: 0 <= i < |c| ==> c[i].keyword == keyword
  {
    UnpackPackLedger(m);
    c := LedgerChunks(keyword, m).value;
  }

  /** The payload of a non-empty ledger, as the chunk `toBuffer` writes for it. */
  lemma LedgerChunkPayload(keyword: string, m: Ledger, other: seq<Chunk>, otherKeyword: string)
    requires WellFormedLedger(m) && keyword != otherKeyword
    requires forall i :: 0 <= i < |other| ==> other[i].keyword == otherKeyword
    ensures LedgerChunks(keyword, m).Ok?
    ensures ReadOne(LedgerChunks(keyword, m).value + other, keyword) == Ok(m)
    ensures ReadOne(other + LedgerChunks(keyword, m).value, keyword) == Ok(m)
  {
    UnpackPackLedger(m);
    var c := LedgerChunks(keyword, m).value;
    FirstTextAppend(c, other, keyword);
    FirstTextAppend(other, c, keyword);
    if |m| == 0 {
      assert m == map[];
    }
  }

  /**
   * Round trip of the lock: reading back the chunks `toBuffer` writes gives the two
   * ledgers it was given, provided the template holds no ledger chunk of its own and
   * both ledgers hold 32-bit ids and MD5 digests.
   */
  lemma LedgerRoundTrip(template: seq<Chunk>, data: Ledger, image: Ledger)
    requires |template| > 0 && NoLedgerChunks(template)
    requires WellFormedLedger(data) && WellFormedLedger(image)
    ensures WriteLedger(template, data, image).Ok?
    ensures ReadLedger(WriteLedger(template, data, image).value) == Ok((data, image))
  {
    var n := |template| - 1;
    var d := LedgerChunkOf("data", data);
    var i := LedgerChunkOf("image", image);
    LedgerChunkPayload("data", data, i, "image");
    LedgerChunkPayload("image", image, d, "data");
    TemplateEnds(template);
    AppendAssoc(template[..n], d, i);
    assert WriteLedger(template, data, image).value == template[..n] + (d + i) + [template[n]];
    ReadAssembled(template[..n], d + i, [template[n]], data, image);
  }

  /** The body and the last chunk of a template without ledger chunks have none either. */
  lemma TemplateEnds(template: seq<Chunk>)
    requires |template| > 0 && NoLedgerChunks(template)
    ensures var n := |template| - 1;
      && FirstText(template[..n], "data").None? && FirstText(template[..n], "image").None?
      && FirstText([template[n]], "data").None? && FirstText([template[n]], "image").None?
  {
  }

  /** `fromBuffer` on a chunk list whose ledger chunks all sit in its middle part. */
  lemma ReadAssembled(body: seq<Chunk>, mid: seq<Chunk>, last: seq<Chunk>, data: Ledger, image: Ledger)
    requires FirstText(body, "data").None? && FirstText(body, "image").None?
    requires FirstText(last, "data").None? && FirstText(last, "image").None?
    requires ReadOne(mid, "data") == Ok(data) && ReadOne(mid, "image") == Ok(image)
    ensures ReadLedger(body + mid + last) == Ok((data, image))
  {
    FirstTextMiddle(body, mid, last, "data");
    FirstTextMiddle(body, mid, last, "image");
  }

  /** `fromBuffer` reads a payload exactly when no fragment of fewer than 4 bytes is left at its end. */
  lemma {:induction false} UnpackFails(buf: seq<byte>, acc: Ledger)
    ensures UnpackFrom(buf, acc).Err? <==> 0 < |buf| % RECORD_LENGTH < UINT32_BYTE_LENGTH
    decreases |buf|
  {
    var n := |buf|;
    if n == 0 {
    } else if n <= RECORD_LENGTH {
      RemainderOfShort(n);
    } else {
      var next := UnpackNext(buf, acc);
      UnpackFails(buf[RECORD_LENGTH..], next);
      RemainderOfLong(n);
    }
  }

  /** A payload longer than one record reads its first record and goes on with the rest. */
  lemma UnpackNext(buf: seq<byte>, acc: Ledger) returns (next: Ledger)
    requires |buf| > RECORD_LENGTH
    ensures UnpackFrom(buf, acc) == UnpackFrom(buf[RECORD_LENGTH..], next)
  {
    next := acc[ReadLE32(buf[..UINT32_BYTE_LENGTH]) := EncodeHex(buf[UINT32_BYTE_LENGTH..RECORD_LENGTH])];
  }

  lemma RemainderOfShort(n: nat)
    requires 0 < n <= RECORD_LENGTH
    ensures n % RECORD_LENGTH == (if n == RECORD_LENGTH then 0 else n)
  {
  }

  lemma RemainderOfLong(n: nat)
    requires n > RECORD_LENGTH
    ensures (n - RECORD_LENGTH) % RECORD_LENGTH == n % RECORD_LENGTH
  {
  }

  /** A payload whose length is not a multiple of 20 but leaves 4 or more bytes still reads, with a short digest. */
  lemma ShortRecordExample()
    ensures UnpackFrom([1, 0, 0, 0, 0xab, 0xcd], map[]) == Ok(map[1 := "abcd"])
  {
    var buf: seq<byte> := [1, 0, 0, 0, 0xab, 0xcd];
    assert buf[..4] == [1, 0, 0, 0];
    assert buf[4..6] == [0xab, 0xcd];
    assert EncodeHex([0xab, 0xcd]) == "abcd" by {
      assert HexChar(10) == 'a' && HexChar(11) == 'b' && HexChar(12) == 'c' && HexChar(13) == 'd';
      assert EncodeHex([0xcd]) == "cd";
    }
  }

  // ---------------------------------------------------------------- the lock

  class PNGLock {
    var data: Ledger
    var image: Ledger

    constructor()
      ensures data == map[] && image == map[]
    {
      data := map[];
      image := map[];
    }

    /** `toBuffer()`, with the template chunk list (read from `source.png`) as a parameter. */
    method ToBuffer(template: seq<Chunk>) returns (r: Result<seq<Chunk>, LockError>)
      requires |template| > 0
      ensures r == WriteLedger(template, data, image)
    {
      var chunks := template[..|template| - 1];
      var iend := template[|template| - 1];
      ghost var dataChunks: seq<Chunk> := [];
      ghost var imageChunks: seq<Chunk> := [];
      if |data| > 0 {
        var p := Pack(data);
        if p.Err? {
          return Err(p.error);
        }
        dataChunks := [TextChunk("data", p.value)];
        chunks := chunks + [TextChunk("data", p.value)];
      }
      assert Ok(dataChunks) == LedgerChunks("data", data);
      if |image| > 0 {
        var p := Pack(image);
        if p.Err? {
          return Err(p.error);
        }
        imageChunks := [TextChunk("image", p.value)];
        chunks := chunks + [TextChunk("image", p.value)];
      }
      assert Ok(imageChunks) == LedgerChunks("image", image);
      assert chunks == template[..|template| - 1] + dataChunks + imageChunks;
      chunks := chunks + [iend];
      return Ok(chunks);
    }

    /** `PNGLock.fromBuffer(buffer)` on the extracted chunk list. */
    static method FromBuffer(chunks: seq<Chunk>) returns (r: Result<PNGLock, LockError>)
      ensures r.Ok? <==> ReadLedger(chunks).Ok?
      ensures r.Ok? ==> fresh(r.value) && (r.value.data, r.value.image) == ReadLedger(chunks).value
      ensures r.Err? ==> r.error == ReadLedger(chunks).error
    {
      var instance := new PNGLock();
      var d := FirstText(chunks, "data");
      var i := FirstText(chunks, "image");
      if d.Some? {
        var u := Unpack(d.value);
        if u.Err? {
          return Err(u.error);
        }
        instance.data := u.value;
      }
      if i.Some? {
        var u := Unpack(i.value);
        if u.Err? {
          return Err(u.error);
        }
        instance.image := u.value;
      }
      return Ok(instance);
    }
  }
}
