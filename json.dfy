/**
 * JSON values as the TypeScript sources type them (`type Json = string | number |
 * boolean | null | Json[] | { [key: string]: Json }`), together with the JavaScript
 * object operations the sources rely on: property lookup, property assignment
 * (which keeps an existing key in place and appends a new one) and the rest
 * pattern `{ k, ...rest }` (which copies every other own key in order).
 *
 * An object is its sequence of own enumerable members in insertion order.
 * Numbers are integers.
 */
module Json {
  import opened Wrappers
  import opened SeqFacts

  datatype Json =
    | JString(str: string)
    | JNumber(num: int)
    | JBool(boolean: bool)
    | JNull
    | JArray(items: seq<Json>)
    | JObject(members: seq<(string, Json)>)

  type Members = seq<(string, Json)>

  /** `Object.keys(o)`: the keys in insertion order. */
  function Keys(ms: Members): (ks: seq<string>)
    ensures |ks| == |ms|
    ensures forall i :: 0 <= i < |ms| ==> ks[i] == ms[i].0
  {
    seq(|ms|, i requires 0 <= i < |ms| => ms[i].0)
  }

  /** A JavaScript object never has the same own key twice. */
  predicate UniqueKeys(ms: Members) {
    NoDuplicates(Keys(ms))
  }

  predicate NoDuplicates<T(==)>(s: seq<T>) {
    forall i, j :: 0 <= i < j < |s| ==> s[i] != s[j]
  }

  /** Every object anywhere inside `j` has unique keys. */
  predicate WellFormed(j: Json) {
    match j
    case JArray(items) => forall i :: 0 <= i < |items| ==> WellFormed(items[i])
    case JObject(ms) => UniqueKeys(ms) && forall i :: 0 <= i < |ms| ==> WellFormed(ms[i].1)
    case _ => true
  }

  /** Unique keys, unfolded one member at a time. */
  lemma UniqueKeysCons(ms: Members)
    requires ms != []
    ensures UniqueKeys(ms) <==> ms[0].0 !in Keys(ms[1..]) && UniqueKeys(ms[1..])
  {
    var t := ms[1..];
    if ms[0].0 !in Keys(t) && UniqueKeys(t) {
      forall i, j | 0 <= i < j < |ms| ensures ms[i].0 != ms[j].0 {
        if i == 0 { assert ms[j].0 == Keys(t)[j - 1]; } else { assert ms[i] == t[i - 1] && ms[j] == t[j - 1]; }
      }
    }
    if UniqueKeys(ms) {
      forall i, j | 0 <= i < j < |t| ensures t[i].0 != t[j].0 { assert t[i] == ms[i + 1] && t[j] == ms[j + 1]; }
    }
  }

  /** A key is among the keys exactly when some member carries it. */
  lemma InKeys(ms: Members, k: string)
    ensures k in Keys(ms) <==> exists i :: 0 <= i < |ms| && ms[i].0 == k
  {
  }

  /** `o[k]`, with `undefined` as `None`. */
  function Lookup(ms: Members, k: string): (r: Option<Json>)
    ensures r.Some? <==> k in Keys(ms)
  {
    if ms == [] then None
    else if ms[0].0 == k then Some(ms[0].1)
    else Lookup(ms[1..], k)
  }

  /** In an object with unique keys, the member with key `k` is what `o[k]` reads. */
  lemma {:induction false} LookupAt(ms: Members, i: nat)
    requires UniqueKeys(ms) && i < |ms|
    ensures Lookup(ms, ms[i].0) == Some(ms[i].1)
  {
    if i > 0 {
      assert ms[0].0 != ms[i].0;
      assert ms[1..][i - 1] == ms[i];
      LookupAt(ms[1..], i - 1);
    }
  }

  /** Property access on any value: only objects have members. */
  function Member(j: Json, k: string): (r: Option<Json>)
    ensures r.Some? ==> j.JObject? && k in Keys(j.members)
  {
    if j.JObject? then Lookup(j.members, k) else None
  }

  /** The rest pattern `const { k, ...rest } = o`: every member but `k`, in order. */
  function Remove(ms: Members, k: string): (r: Members)
    ensures k !in Keys(r)
    ensures forall k' :: k' != k ==> Lookup(r, k') == Lookup(ms, k')
    ensures forall m :: m in r ==> m in ms
  {
    if ms == [] then []
    else if ms[0].0 == k then Remove(ms[1..], k)
    else [ms[0]] + Remove(ms[1..], k)
  }

  lemma {:induction false} RemoveUnique(ms: Members, k: string)
    requires UniqueKeys(ms)
    ensures UniqueKeys(Remove(ms, k))
  {
    if ms != [] {
      UniqueKeysCons(ms);
      RemoveUnique(ms[1..], k);
      var t := Remove(ms[1..], k);
      if ms[0].0 != k {
        var r := [ms[0]] + t;
        assert r[1..] == t;
        forall j | 0 <= j < |t| ensures t[j].0 != ms[0].0 {
          assert t[j] in ms[1..];
        }
        UniqueKeysCons(r);
      }
    }
  }

  /** Property assignment `o[k] = v`: an existing key keeps its position, a new key goes last. */
  function Assign(ms: Members, k: string, v: Json): (r: Members)
    ensures Lookup(r, k) == Some(v)
    ensures forall k' :: k' != k ==> Lookup(r, k') == Lookup(ms, k')
  {
    if ms == [] then [(k, v)]
    else if ms[0].0 == k then [(k, v)] + ms[1..]
    else [ms[0]] + Assign(ms[1..], k, v)
  }

  lemma KeysCons(ms: Members)
    requires ms != []
    ensures Keys(ms) == [ms[0].0] + Keys(ms[1..])
  {
  }

  /** Assignment keeps the key order, appending a new key. */
  lemma {:induction false} AssignKeys(ms: Members, k: string, v: Json)
    ensures Keys(Assign(ms, k, v)) == if k in Keys(ms) then Keys(ms) else Keys(ms) + [k]
  {
    if ms == [] {
    } else if ms[0].0 == k {
      AssignHeadKeys(ms, k, v);
    } else {
      AssignKeys(ms[1..], k, v);
      AssignTailKeys(ms, k, v);
    }
  }

  /** Assigning the first key keeps every key in place. */
  lemma AssignHeadKeys(ms: Members, k: string, v: Json)
    requires ms != [] && ms[0].0 == k
    ensures k in Keys(ms) && Keys(Assign(ms, k, v)) == Keys(ms)
  {
    assert Keys(ms)[0] == k;
    var r := [(k, v)] + ms[1..];
    assert Assign(ms, k, v) == r;
    assert forall i :: 0 <= i < |ms| ==> Keys(r)[i] == Keys(ms)[i];
  }

  /** Past a different first key, assignment keeps that key first. */
  lemma AssignTailKeys(ms: Members, k: string, v: Json)
    requires ms != [] && ms[0].0 != k
    requires Keys(Assign(ms[1..], k, v)) == if k in Keys(ms[1..]) then Keys(ms[1..]) else Keys(ms[1..]) + [k]
    ensures Keys(Assign(ms, k, v)) == if k in Keys(ms) then Keys(ms) else Keys(ms) + [k]
  {
    var t := Assign(ms[1..], k, v);
    assert Assign(ms, k, v) == [ms[0]] + t;
    KeysCons(ms);
    KeysCons([ms[0]] + t);
    assert ([ms[0]] + t)[1..] == t;
    assert k in Keys(ms) <==> k in Keys(ms[1..]);
    if k !in Keys(ms[1..]) {
      AppendAssoc([ms[0].0], Keys(ms[1..]), [k]);
    }
  }

  lemma AssignUnique(ms: Members, k: string, v: Json)
    requires UniqueKeys(ms)
    ensures UniqueKeys(Assign(ms, k, v))
  {
    AssignKeys(ms, k, v);
  }
}
