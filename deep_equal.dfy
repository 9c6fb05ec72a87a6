/**
 * Structural JSON equality, `deepEqual` of `src/utils/deepEqual.ts` and its JavaScript
 * build `src/utils/deepEqual.js` (the two are the same algorithm).
 *
 * `JsonEqual` is the specification: values of different kinds differ, scalars compare
 * with `===`, arrays pairwise by index, objects by "every own key of `actual` is a key
 * of `expected` with an equal value, and both have as many keys". The methods
 * `DeepEqual`, `DeepEqualObjects` and `DeepEqualArray` are the source's loops, each
 * proved to compute `JsonEqual`.
 */
module Equality {
  import opened Wrappers
  import opened Json

  /** The `JSON_TYPE` enumeration. */
  datatype Kind = StringKind | NumberKind | ObjectKind | ArrayKind | BooleanKind | NullKind

  /** `getType`: `typeof`, with `null` and arrays told apart from plain objects. */
  function GetType(v: Json): (k: Kind)
    ensures k == NullKind <==> v.JNull?
    ensures k == ArrayKind <==> v.JArray?
    ensures k == ObjectKind <==> v.JObject?
  {
    match v
    case JString(_) => StringKind
    case JNumber(_) => NumberKind
    case JBool(_) => BooleanKind
    case JNull => NullKind
    case JArray(_) => ArrayKind
    case JObject(_) => ObjectKind
  }

  /** Scalars compare with `===`. */
  predicate IsScalar(v: Json) {
    !v.JArray? && !v.JObject?
  }

  /** The equality `deepEqual` decides. */
  predicate JsonEqual(a: Json, b: Json)
    decreases a
  {
    GetType(a) == GetType(b) &&
    match a
    case JArray(xs) =>
      |xs| == |b.items| && forall i :: 0 <= i < |xs| ==> JsonEqual(xs[i], b.items[i])
    case JObject(am) =>
      |am| == |b.members| &&
      forall i :: 0 <= i < |am| ==>
        am[i].0 in Keys(b.members) && JsonEqual(am[i].1, Lookup(b.members, am[i].0).value)
    case _ => a == b
  }

  /** `deepEqual(actual, expected)`. */
  method DeepEqual(actual: Json, expected: Json) returns (r: bool)
    ensures r == JsonEqual(actual, expected)
    ensures GetType(actual) != GetType(expected) ==> !r
    ensures IsScalar(actual) ==> (r <==> actual == expected)
    decreases actual, 1
  {
    var kind := GetType(actual);
    if kind != GetType(expected) {
      return false;
    }
    match actual
    case JObject(am) =>
      r := DeepEqualObjects(am, expected.members);
    case JArray(xs) =>
      r := DeepEqualArray(xs, expected.items);
    case _ =>
      r := actual == expected;
  }

  /**
   * `deepEqualObjects(actual, expected)`: walks the keys of `actual`, failing at the
   * first key missing from `expected` or holding an unequal value, and finally
   * compares the number of keys walked with the number of keys of `expected`.
   */
  method DeepEqualObjects(actual: Members, expected: Members) returns (r: bool)
    ensures r == JsonEqual(JObject(actual), JObject(expected))
    decreases JObject(actual), 0
  {
    var l := |Keys(expected)|;
    var i := 0;
    var n := 0;
    while n < |actual|
      invariant 0 <= n <= |actual| && i == n
      invariant forall j :: 0 <= j < n ==>
        actual[j].0 in Keys(expected) && JsonEqual(actual[j].1, Lookup(expected, actual[j].0).value)
    {
      var key := actual[n].0;
      var e := Lookup(expected, key);
      if e.None? {
        return false;
      }
      var same := DeepEqual(actual[n].1, e.value);
      if !same {
        return false;
      }
      i := i + 1;
      n := n + 1;
    }
    r := i == l;
  }

  /** `deepEqualArray(actual, expected)`: equal lengths, then pairwise by index with early exit. */
  method DeepEqualArray(actual: seq<Json>, expected: seq<Json>) returns (r: bool)
    ensures r == JsonEqual(JArray(actual), JArray(expected))
    ensures r ==> |actual| == |expected|
    decreases JArray(actual), 0
  {
    if |actual| != |expected| {
      return false;
    }
    var i := 0;
    while i < |actual|
      invariant 0 <= i <= |actual|
      invariant forall j :: 0 <= j < i ==> JsonEqual(actual[j], expected[j])
    {
      var same := DeepEqual(actual[i], expected[i]);
      if !same {
        return false;
      }
      i := i + 1;
    }
    return true;
  }

  // ---------------------------------------------------------------- properties

  /** Every well-formed value equals itself. */
  lemma {:induction false} JsonEqualReflexive(a: Json)
    requires WellFormed(a)
    ensures JsonEqual(a, a)
    decreases a
  {
    match a
    case JArray(xs) =>
      forall i | 0 <= i < |xs| ensures JsonEqual(xs[i], xs[i]) {
        JsonEqualReflexive(xs[i]);
      }
    case JObject(am) =>
      forall i | 0 <= i < |am| ensures am[i].0 in Keys(am) && JsonEqual(am[i].1, Lookup(am, am[i].0).value) {
        LookupAt(am, i);
        JsonEqualReflexive(am[i].1);
      }
    case _ =>
  }

  /** The keys of a member list with unique keys are as many as its members. */
  lemma {:induction false} UniqueKeysCard(ms: Members)
    requires UniqueKeys(ms)
    ensures |set k | k in Keys(ms)| == |ms|
  {
    if ms != [] {
      UniqueKeysCons(ms);
      UniqueKeysCard(ms[1..]);
      KeysCons(ms);
      var rest := set k | k in Keys(ms[1..]);
      assert (set k | k in Keys(ms)) == rest + {ms[0].0};
    } else {
      assert (set k | k in Keys(ms)) == {};
    }
  }

  /** Equal objects with unique keys have the same key set. */
  lemma SameKeys(am: Members, bm: Members)
    requires UniqueKeys(am) && UniqueKeys(bm) && |am| == |bm|
    requires forall i :: 0 <= i < |am| ==> am[i].0 in Keys(bm)
    ensures forall k :: k in Keys(am) <==> k in Keys(bm)
  {
    var ka := set k | k in Keys(am);
    var kb := set k | k in Keys(bm);
    UniqueKeysCard(am);
    UniqueKeysCard(bm);
    assert ka <= kb;
    assert |kb - ka| == |kb| - |ka| by {
      assert kb == ka + (kb - ka);
      assert ka * (kb - ka) == {};
    }
    assert kb - ka == {};
    assert ka == kb;
    forall k ensures k in Keys(am) <==> k in Keys(bm) {
      assert k in Keys(am) <==> k in ka;
      assert k in Keys(bm) <==> k in kb;
    }
  }

  /** Index of a key in a member list. */
  lemma KeyIndex(ms: Members, k: string) returns (i: nat)
    requires k in Keys(ms)
    ensures i < |ms| && ms[i].0 == k
  {
    InKeys(ms, k);
    i :| 0 <= i < |ms| && ms[i].0 == k;
  }

  /** `deepEqual` does not depend on the order of its arguments. */
  lemma {:induction false} JsonEqualSymmetric(a: Json, b: Json)
    requires WellFormed(a) && WellFormed(b) && JsonEqual(a, b)
    ensures JsonEqual(b, a)
    decreases a
  {
    match a
    case JArray(xs) =>
      forall i | 0 <= i < |xs| ensures JsonEqual(b.items[i], xs[i]) {
        JsonEqualSymmetric(xs[i], b.items[i]);
      }
    case JObject(am) =>
      var bm := b.members;
      SameKeys(am, bm);
      forall j | 0 <= j < |bm| ensures bm[j].0 in Keys(am) && JsonEqual(bm[j].1, Lookup(am, bm[j].0).value) {
        var i := KeyIndex(am, bm[j].0);
        LookupAt(am, i);
        LookupAt(bm, j);
        JsonEqualSymmetric(am[i].1, bm[j].1);
      }
    case _ =>
  }

  /**
   * Objects are equal exactly when they have the same key set and equal values under
   * every key; their key order plays no part.
   */
  lemma ObjectEqualIff(am: Members, bm: Members)
    requires WellFormed(JObject(am)) && WellFormed(JObject(bm))
    ensures JsonEqual(JObject(am), JObject(bm)) <==>
      (forall k :: k in Keys(am) <==> k in Keys(bm)) &&
      (forall k :: k in Keys(am) ==> JsonEqual(Lookup(am, k).value, Lookup(bm, k).value))
  {
    if JsonEqual(JObject(am), JObject(bm)) {
      SameKeys(am, bm);
      forall k | k in Keys(am) ensures JsonEqual(Lookup(am, k).value, Lookup(bm, k).value) {
        var i := KeyIndex(am, k);
        LookupAt(am, i);
      }
    }
    if (forall k :: k in Keys(am) <==> k in Keys(bm)) &&
       (forall k :: k in Keys(am) ==> JsonEqual(Lookup(am, k).value, Lookup(bm, k).value)) {
      forall i | 0 <= i < |am| ensures am[i].0 in Keys(bm) && JsonEqual(am[i].1, Lookup(bm, am[i].0).value) {
        LookupAt(am, i);
      }
      UniqueKeysCard(am);
      UniqueKeysCard(bm);
      assert (set k | k in Keys(am)) == (set k | k in Keys(bm));
    }
  }
}
