/**
 * The set binding: from the icon-set listing (a display name and the ids of its
 * icons, per set) to the names of the sets each icon belongs to. The same loop is in
 * `src/IconV2.ts` and in `getSetsData` of `src/icons/v3.ts` and `src/icons/v3.js`: for
 * each set, for each of its ids, fetch the id's list (creating an empty one first)
 * and push the set's name unless the list already holds it.
 */
module SetBinding {

  datatype IconSet = IconSet(displayName: string, icons: seq<nat>)

  type Binding = map<nat, seq<string>>

  /** `binding.get(id) ?? []`. */
  function NamesOf(b: Binding, id: nat): seq<string> {
    if id in b then b[id] else []
  }

  /** `if (!container.includes(name)) container.push(name)`. */
  function AddName(names: seq<string>, name: string): (r: seq<string>)
    ensures name in r && forall n :: n in r <==> n in names || n == name
  {
    if name in names then names else names + [name]
  }

  /** The inner loop over one set's ids, as a fold over a prefix of them. */
  function BindIcons(b: Binding, name: string, icons: seq<nat>): Binding
    decreases |icons|
  {
    if icons == [] then b
    else
      var b' := BindIcons(b, name, icons[..|icons| - 1]);
      var id := icons[|icons| - 1];
      b'[id := AddName(NamesOf(b', id), name)]
  }

  /** The outer loop over the sets, as a fold over a prefix of them. */
  function Bind(sets: seq<IconSet>): Binding
    decreases |sets|
  {
    if sets == [] then map[]
    else
      var last := sets[|sets| - 1];
      BindIcons(Bind(sets[..|sets| - 1]), last.displayName, last.icons)
  }

  /** The binding loop. */
  method BindSets(sets: seq<IconSet>) returns (binding: Binding)
    ensures binding == Bind(sets)
  {
    binding := map[];
    for i := 0 to |sets|
      invariant binding == Bind(sets[..i])
    {
      var displayName, icons := sets[i].displayName, sets[i].icons;
      ghost var before := binding;
      for j := 0 to |icons|
        invariant binding == BindIcons(before, displayName, icons[..j])
      {
        var id := icons[j];
        var container: seq<string>;
        if id in binding {
          container := binding[id];
        } else {
          container := [];
          binding := binding[id := container];
        }
        if displayName !in container {
          container := container + [displayName];
          binding := binding[id := container];
        }
        BindIconsStep(before, displayName, icons, j);
      }
      assert icons[..|icons|] == icons;
      assert sets[..i + 1][..i] == sets[..i];
    }
    assert sets[..|sets|] == sets;
  }

  /** One pass of the ids loop: the id's list gains the name unless it holds it already. */
  lemma BindIconsStep(b: Binding, name: string, icons: seq<nat>, j: nat)
    requires j < |icons|
    ensures var b', id := BindIcons(b, name, icons[..j]), icons[j];
      BindIcons(b, name, icons[..j + 1]) == b'[id := AddName(NamesOf(b', id), name)]
  {
    assert icons[..j + 1][..j] == icons[..j];
  }

  // ---------------------------------------------------------------- a reference definition

  /** The names of the sets listing `id`, in set order, repeats included. */
  function Listing(sets: seq<IconSet>, id: nat): seq<string>
    decreases |sets|
  {
    if sets == [] then []
    else
      var last := sets[|sets| - 1];
      Listing(sets[..|sets| - 1], id) + (if id in last.icons then [last.displayName] else [])
  }

  /** Keep the first occurrence of each name. */
  function Dedup(ns: seq<string>): seq<string>
    decreases |ns|
  {
    if ns == [] then [] else AddName(Dedup(ns[..|ns| - 1]), ns[|ns| - 1])
  }

  /** The index of the first occurrence of `n`. */
  function FirstIndex(ns: seq<string>, n: string): (i: nat)
    requires n in ns
    ensures i < |ns| && ns[i] == n && forall j :: 0 <= j < i ==> ns[j] != n
  {
    if ns[0] == n then 0 else 1 + FirstIndex(ns[1..], n)
  }

  // ---------------------------------------------------------------- properties

  /** Pushing a name that is already there changes nothing. */
  lemma AddNameTwice(names: seq<string>, name: string)
    ensures AddName(AddName(names, name), name) == AddName(names, name)
  {
  }

  /** The ids loop touches only the ids it lists, and each of them gains the name once. */
  lemma {:induction false} BindIconsAt(b: Binding, name: string, icons: seq<nat>, id: nat)
    ensures id in BindIcons(b, name, icons) <==> id in b || id in icons
    ensures NamesOf(BindIcons(b, name, icons), id) == if id in icons then AddName(NamesOf(b, id), name) else NamesOf(b, id)
    decreases |icons|
  {
    if icons != [] {
      var init := icons[..|icons| - 1];
      BindIconsAt(b, name, init, id);
      assert icons == init + [icons[|icons| - 1]];
      if id in init {
        AddNameTwice(NamesOf(b, id), name);
      }
    }
  }

  /** The names listing an id are exactly the names of the sets that list it. */
  lemma {:induction false} ListingMembers(sets: seq<IconSet>, id: nat)
    ensures forall n :: n in Listing(sets, id) <==> exists k :: 0 <= k < |sets| && sets[k].displayName == n && id in sets[k].icons
    decreases |sets|
  {
    if sets != [] {
      var init := sets[..|sets| - 1];
      ListingMembers(init, id);
      assert forall k :: 0 <= k < |init| ==> init[k] == sets[k];
    }
  }

  /** The binding of an id is the listing of its sets with repeats dropped. */
  lemma {:induction false} BindListing(sets: seq<IconSet>, id: nat)
    ensures NamesOf(Bind(sets), id) == Dedup(Listing(sets, id))
    decreases |sets|
  {
    if sets != [] {
      var init := sets[..|sets| - 1];
      var last := sets[|sets| - 1];
      BindListing(init, id);
      BindIconsAt(Bind(init), last.displayName, last.icons, id);
      var l := Listing(init, id);
      if id in last.icons {
        assert (l + [last.displayName])[..|l|] == l;
      } else {
        assert l + [] == l;
      }
    }
  }

  /** The binding holds exactly the ids some set lists. */
  lemma {:induction false} BindDomain(sets: seq<IconSet>, id: nat)
    ensures id in Bind(sets) <==> exists k :: 0 <= k < |sets| && id in sets[k].icons
    decreases |sets|
  {
    if sets != [] {
      var init := sets[..|sets| - 1];
      var last := sets[|sets| - 1];
      BindDomain(init, id);
      BindIconsAt(Bind(init), last.displayName, last.icons, id);
      assert forall k :: 0 <= k < |init| ==> init[k] == sets[k];
    }
  }

  /** `Dedup` holds each name once, holds exactly the names listed, and keeps first-seen order. */
  lemma DedupProperties(ns: seq<string>)
    ensures var d := Dedup(ns);
      && (forall i, j :: 0 <= i < j < |d| ==> d[i] != d[j])
      && (forall n :: n in d <==> n in ns)
      && (forall i, j :: 0 <= i < j < |d| ==> FirstIndex(ns, d[i]) < FirstIndex(ns, d[j]))
  {
    DedupDistinct(ns);
    DedupMembers(ns);
    DedupOrder(ns);
  }

  lemma {:induction false} DedupDistinct(ns: seq<string>)
    ensures forall i, j :: 0 <= i < j < |Dedup(ns)| ==> Dedup(ns)[i] != Dedup(ns)[j]
    decreases |ns|
  {
    if ns != [] {
      var d0, x := Dedup(ns[..|ns| - 1]), ns[|ns| - 1];
      DedupDistinct(ns[..|ns| - 1]);
      if x !in d0 {
        var d := d0 + [x];
        forall i, j | 0 <= i < j < |d| ensures d[i] != d[j] {
          if j == |d0| {
            assert d[i] == d0[i] && d0[i] in d0;
          } else {
            assert d[i] == d0[i] && d[j] == d0[j];
          }
        }
        assert Dedup(ns) == d;
      }
    }
  }

  lemma {:induction false} DedupMembers(ns: seq<string>)
    ensures forall n :: n in Dedup(ns) <==> n in ns
    decreases |ns|
  {
    if ns != [] {
      var init := ns[..|ns| - 1];
      DedupMembers(init);
      assert ns == init + [ns[|ns| - 1]];
    }
  }

  lemma {:induction false} DedupOrder(ns: seq<string>)
    ensures forall i :: 0 <= i < |Dedup(ns)| ==> Dedup(ns)[i] in ns
    ensures forall i, j :: 0 <= i < j < |Dedup(ns)| ==> FirstIndex(ns, Dedup(ns)[i]) < FirstIndex(ns, Dedup(ns)[j])
    decreases |ns|
  {
    if ns != [] {
      var init, x := ns[..|ns| - 1], ns[|ns| - 1];
      assert ns == init + [x];
      DedupOrder(init);
      var d0, d := Dedup(init), Dedup(ns);
      if x !in d0 {
        DedupMembers(init);
        FirstIndexLast(init, x);
        assert d == d0 + [x];
      } else {
        assert d == d0;
      }
      forall i | 0 <= i < |d| ensures d[i] in ns {
        if i < |d0| {
          assert d[i] == d0[i] && d0[i] in init;
        }
      }
      forall i, j | 0 <= i < j < |d| ensures FirstIndex(ns, d[i]) < FirstIndex(ns, d[j]) {
        assert d[i] == d0[i] && d0[i] in init;
        FirstIndexPrefix(init, x, d0[i]);
        if j < |d0| {
          assert d[j] == d0[j] && d0[j] in init;
          FirstIndexPrefix(init, x, d0[j]);
        }
      }
    }
  }

  lemma FirstIndexPrefix(init: seq<string>, x: string, n: string)
    requires n in init
    ensures FirstIndex(init + [x], n) == FirstIndex(init, n)
  {
    var i := FirstIndex(init, n);
    assert (init + [x])[i] == n;
  }

  lemma FirstIndexLast(init: seq<string>, x: string)
    requires x !in init
    ensures FirstIndex(init + [x], x) == |init|
  {
    assert (init + [x])[|init|] == x;
  }

  /**
   * What the binding gives each id: every name once, in the order the sets first list
   * the id, exactly the names of the sets that list it, and `[]` for an id no set lists.
   */
  lemma BindingProperties(sets: seq<IconSet>, id: nat)
    ensures var names := NamesOf(Bind(sets), id);
      && (forall i, j :: 0 <= i < j < |names| ==> names[i] != names[j])
      && (forall n :: n in names <==> n in Listing(sets, id))
      && (forall n :: n in names <==> exists k :: 0 <= k < |sets| && sets[k].displayName == n && id in sets[k].icons)
      && (forall i, j :: 0 <= i < j < |names| ==> FirstIndex(Listing(sets, id), names[i]) < FirstIndex(Listing(sets, id), names[j]))
      && ((forall k :: 0 <= k < |sets| ==> id !in sets[k].icons) ==> names == [])
  {
    BindListing(sets, id);
    ListingMembers(sets, id);
    DedupProperties(Listing(sets, id));
  }
}
