/**
 * An entry of the Riot summoner-icon listing as JSON (`RiotIconEntry` in
 * `src/IconV2.ts`, `RawRiotIconEntry` in `src/icons/v3.ts`): an object with a numeric
 * `id` and two arrays, `descriptions` and `rarities`, of objects carrying a `region`.
 * Both drivers re-key those arrays by region with the same reduce: for each item,
 * `{ region, ...props }`, then `accum[region] = props`.
 */
module RiotEntry {
  import opened Wrappers
  import opened Json

  /** An item carrying a string `region`. */
  predicate IsRegional(item: Json) {
    item.JObject? && Lookup(item.members, "region").Some? && Lookup(item.members, "region").value.JString?
  }

  function Region(item: Json): string
    requires IsRegional(item)
  {
    Lookup(item.members, "region").value.str
  }

  /** The rest pattern `{ region, ...props }`. */
  function Props(item: Json): (p: Json)
    requires IsRegional(item)
    ensures p.JObject? && "region" !in Keys(p.members)
  {
    JObject(Remove(item.members, "region"))
  }

  predicate AllRegional(items: seq<Json>) {
    forall i :: 0 <= i < |items| ==> IsRegional(items[i])
  }

  /** The reduce over the items, as a fold over a prefix of them. */
  function ByRegion(items: seq<Json>): Members
    requires AllRegional(items)
    decreases |items|
  {
    if items == [] then []
    else
      var last := items[|items| - 1];
      Assign(ByRegion(items[..|items| - 1]), Region(last), Props(last))
  }

  /** The index of the last item of region `k`. */
  function LastOfRegion(items: seq<Json>, k: string): (r: Option<nat>)
    requires AllRegional(items)
    ensures r.None? <==> forall j :: 0 <= j < |items| ==> Region(items[j]) != k
    ensures r.Some? ==> r.value < |items| && Region(items[r.value]) == k
    ensures r.Some? ==> forall j :: r.value < j < |items| ==> Region(items[j]) != k
    decreases |items|
  {
    if items == [] then None
    else if Region(items[|items| - 1]) == k then Some(|items| - 1)
    else
      var init := items[..|items| - 1];
      assert forall j :: 0 <= j < |init| ==> init[j] == items[j];
      LastOfRegion(init, k)
  }

  /**
   * The re-keyed object has one key per region, a region's value is the rest of the
   * last item of that region (later duplicates overwrite earlier ones), and an absent
   * region has no key.
   */
  lemma {:induction false} ByRegionLookup(items: seq<Json>, k: string)
    requires AllRegional(items)
    ensures UniqueKeys(ByRegion(items))
    ensures Lookup(ByRegion(items), k) == match LastOfRegion(items, k)
      case None => None
      case Some(i) => Some(Props(items[i]))
    decreases |items|
  {
    if items != [] {
      var init := items[..|items| - 1];
      assert forall j :: 0 <= j < |init| ==> init[j] == items[j];
      ByRegionLookup(init, k);
      AssignUnique(ByRegion(init), Region(items[|items| - 1]), Props(items[|items| - 1]));
    }
  }

  /** `Object.keys` of the re-keyed object: exactly the regions, each once. */
  lemma ByRegionKeys(items: seq<Json>)
    requires AllRegional(items)
    ensures UniqueKeys(ByRegion(items))
    ensures forall k :: k in Keys(ByRegion(items)) <==> exists j :: 0 <= j < |items| && Region(items[j]) == k
  {
    ByRegionLookup(items, "");
    forall k ensures k in Keys(ByRegion(items)) <==> exists j :: 0 <= j < |items| && Region(items[j]) == k {
      ByRegionLookup(items, k);
    }
  }

  /** An array of regional items. */
  predicate IsRegionalArray(j: Option<Json>) {
    j.Some? && j.value.JArray? && AllRegional(j.value.items)
  }

  /** The shape both drivers rely on: an unsigned `id` and the two regional arrays. */
  predicate IsEntry(e: Json) {
    && e.JObject?
    && UniqueKeys(e.members)
    && Lookup(e.members, "id").Some? && Lookup(e.members, "id").value.JNumber?
    && Lookup(e.members, "id").value.num >= 0
    && IsRegionalArray(Lookup(e.members, "descriptions"))
    && IsRegionalArray(Lookup(e.members, "rarities"))
  }

  function Id(e: Json): nat
    requires IsEntry(e)
  {
    Lookup(e.members, "id").value.num
  }

  function Descriptions(e: Json): (items: seq<Json>)
    requires IsEntry(e)
    ensures AllRegional(items)
  {
    Lookup(e.members, "descriptions").value.items
  }

  function Rarities(e: Json): (items: seq<Json>)
    requires IsEntry(e)
    ensures AllRegional(items)
  {
    Lookup(e.members, "rarities").value.items
  }

  /** `"imagePath" in entry`. */
  predicate HasImagePath(e: Json) {
    e.JObject? && Lookup(e.members, "imagePath").Some?
  }

  /** The entries that have `imagePath`, in order. */
  function WithImagePath(source: seq<Json>): seq<Json>
    decreases |source|
  {
    if source == [] then []
    else
      var last := source[|source| - 1];
      WithImagePath(source[..|source| - 1]) + (if HasImagePath(last) then [last] else [])
  }

  /** Every entry that has `imagePath` is kept by the filter; `k` is where. */
  lemma {:induction false} WithImagePathIndex(source: seq<Json>, i: nat) returns (k: nat)
    requires i < |source| && HasImagePath(source[i])
    ensures k < |WithImagePath(source)| && WithImagePath(source)[k] == source[i]
    decreases |source|
  {
    var init := source[..|source| - 1];
    if i == |source| - 1 {
      k := |WithImagePath(init)|;
    } else {
      assert source[i] == init[i];
      k := WithImagePathIndex(init, i);
    }
  }
}
