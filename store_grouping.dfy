/** `Collectors.groupingBy(ProductStore::getStore)` over a product's
    variations. A grouping is any list of groups with one group per
    distinct store (stores compared structurally), each holding that
    store's variations in lookup order. The order of the groups is not
    fixed (the groups come out of a hash map), so every property below is
    stated for all groupings. */
module StoreGrouping {
  import opened Common
  import opened Entities

  /** A variation together with the store it references. */
  datatype Listing = Listing(variation: ProductStore, store: Store)

  /** The variations of a lookup, in lookup order. */
  function Variations(ls: seq<Listing>): (r: seq<ProductStore>)
    ensures |r| == |ls|
    ensures forall i :: 0 <= i < |ls| ==> r[i] == ls[i].variation
  {
    seq(|ls|, i requires 0 <= i < |ls| => ls[i].variation)
  }

  /** One entry of the grouping: a store and its variations. */
  datatype Group = Group(store: Store, members: seq<ProductStore>)

  /** The variations listed at `s`, in lookup order. */
  function Members(ls: seq<Listing>, s: Store): seq<ProductStore>
  {
    if ls == [] then []
    else
      var last := ls[|ls| - 1];
      Members(ls[..|ls| - 1], s) + (if last.store == s then [last.variation] else [])
  }

  /** The distinct stores of a lookup. */
  function StoresOf(ls: seq<Listing>): set<Store> {
    set i | 0 <= i < |ls| :: ls[i].store
  }

  predicate Distinct(keys: seq<Store>) {
    forall i, j :: 0 <= i < j < |keys| ==> keys[i] != keys[j]
  }

  function Keys(gs: seq<Group>): (r: seq<Store>)
    ensures |r| == |gs|
    ensures forall i :: 0 <= i < |gs| ==> r[i] == gs[i].store
  {
    seq(|gs|, i requires 0 <= i < |gs| => gs[i].store)
  }

  /** `gs` is a grouping of `ls` by store: its keys are distinct and are
      exactly the stores of `ls`, and each group holds the variations of its
      store in lookup order. Nothing is said about the order of the groups. */
  predicate IsGrouping(ls: seq<Listing>, gs: seq<Group>) {
    && Distinct(Keys(gs))
    && (forall i :: 0 <= i < |gs| ==> gs[i].store in StoresOf(ls))
    && (forall s :: s in StoresOf(ls) ==> s in Keys(gs))
    && (forall i :: 0 <= i < |gs| ==> gs[i].members == Members(ls, gs[i].store))
  }

  /** The number of variations over all groups. */
  function TotalSize(gs: seq<Group>): nat {
    if gs == [] then 0 else |gs[0].members| + TotalSize(gs[1..])
  }

  // ------------------------------------------------- one grouping exists

  /** The stores of a lookup, each once, in the order they are first seen. */
  function DistinctStores(ls: seq<Listing>): (r: seq<Store>)
    ensures Distinct(r)
    ensures forall i :: 0 <= i < |r| ==> r[i] in StoresOf(ls)
    ensures forall s :: s in StoresOf(ls) ==> s in r
  {
    if ls == [] then []
    else
      var front := ls[..|ls| - 1];
      var last := ls[|ls| - 1];
      var keys := DistinctStores(front);
      assert forall i :: 0 <= i < |front| ==> front[i] == ls[i];
      assert forall s :: s in StoresOf(ls) ==> s in StoresOf(front) || s == last.store;
      if last.store in keys then keys else keys + [last.store]
  }

  /** The grouping in first-seen store order. */
  function GroupByStore(ls: seq<Listing>): (gs: seq<Group>)
    ensures IsGrouping(ls, gs)
  {
    var keys := DistinctStores(ls);
    var gs := seq(|keys|, i requires 0 <= i < |keys| => Group(keys[i], Members(ls, keys[i])));
    assert Keys(gs) == keys;
    gs
  }

  // ----------------------------------------------------- counting lemmas

  /** The sizes of the groups for `keys`, whether or not they are stores of `ls`. */
  function SizeSum(ls: seq<Listing>, keys: seq<Store>): nat {
    if keys == [] then 0 else |Members(ls, keys[0])| + SizeSum(ls, keys[1..])
  }

  function Occurrences(keys: seq<Store>, s: Store): nat {
    if keys == [] then 0 else (if keys[0] == s then 1 else 0) + Occurrences(keys[1..], s)
  }

  lemma {:induction false} OccursOnce(keys: seq<Store>, s: Store)
    requires Distinct(keys) && s in keys
    ensures Occurrences(keys, s) == 1
  {
    if keys[0] == s {
      NotOccurring(keys[1..], s);
    } else {
      OccursOnce(keys[1..], s);
    }
  }

  lemma {:induction false} NotOccurring(keys: seq<Store>, s: Store)
    requires s !in keys
    ensures Occurrences(keys, s) == 0
  {
    if keys != [] {
      NotOccurring(keys[1..], s);
    }
  }

  /** Appending a listing adds one to the group of its store. */
  lemma {:induction false} SizeSumSnoc(ls: seq<Listing>, l: Listing, keys: seq<Store>)
    ensures SizeSum(ls + [l], keys) == SizeSum(ls, keys) + Occurrences(keys, l.store)
  {
    assert (ls + [l])[..|ls|] == ls;
    if keys != [] {
      SizeSumSnoc(ls, l, keys[1..]);
    }
  }

  /** Distinct keys covering every store of `ls` split `ls` with nothing
      lost and nothing counted twice. */
  lemma {:induction false} SizeSumIsLength(ls: seq<Listing>, keys: seq<Store>)
    requires Distinct(keys)
    requires forall i :: 0 <= i < |ls| ==> ls[i].store in keys
    ensures SizeSum(ls, keys) == |ls|
    decreases |ls|
  {
    if ls == [] {
      EmptyMembers(keys);
    } else {
      var front := ls[..|ls| - 1];
      var last := ls[|ls| - 1];
      assert ls == front + [last];
      SizeSumIsLength(front, keys);
      SizeSumSnoc(front, last, keys);
      OccursOnce(keys, last.store);
    }
  }

  lemma {:induction false} EmptyMembers(keys: seq<Store>)
    ensures SizeSum([], keys) == 0
  {
    if keys != [] {
      EmptyMembers(keys[1..]);
    }
  }

  lemma {:induction false} TotalSizeIsSizeSum(ls: seq<Listing>, gs: seq<Group>)
    requires forall i :: 0 <= i < |gs| ==> gs[i].members == Members(ls, gs[i].store)
    ensures TotalSize(gs) == SizeSum(ls, Keys(gs))
  {
    if gs != [] {
      assert Keys(gs)[1..] == Keys(gs[1..]);
      TotalSizeIsSizeSum(ls, gs[1..]);
    }
  }

  /** Grouping preserves the number of variations: every variation lands in
      some group and none in two. */
  lemma GroupingPreservesCount(ls: seq<Listing>, gs: seq<Group>)
    requires IsGrouping(ls, gs)
    ensures TotalSize(gs) == |ls|
  {
    assert forall i :: 0 <= i < |ls| ==> ls[i].store in StoresOf(ls);
    TotalSizeIsSizeSum(ls, gs);
    SizeSumIsLength(ls, Keys(gs));
  }

  /** A sequence without repetitions is as long as the set of its elements. */
  lemma {:induction false} DistinctCardinality(keys: seq<Store>)
    requires Distinct(keys)
    ensures |set i | 0 <= i < |keys| :: keys[i]| == |keys|
  {
    if keys != [] {
      var rest := keys[1..];
      DistinctCardinality(rest);
      var all := set i | 0 <= i < |keys| :: keys[i];
      var tail := set i | 0 <= i < |rest| :: rest[i];
      assert all == tail + {keys[0]} by {
        forall s | s in all ensures s in tail + {keys[0]} {
          var i :| 0 <= i < |keys| && keys[i] == s;
          if i > 0 { assert rest[i - 1] == s; }
        }
        forall s | s in tail ensures s in all {
          var i :| 0 <= i < |rest| && rest[i] == s;
          assert keys[i + 1] == s;
        }
      }
      assert keys[0] !in tail;
    }
  }

  /** One group per distinct store. */
  lemma GroupCountIsStoreCount(ls: seq<Listing>, gs: seq<Group>)
    requires IsGrouping(ls, gs)
    ensures |gs| == |StoresOf(ls)|
  {
    var keys := Keys(gs);
    DistinctCardinality(keys);
    var keySet := set i | 0 <= i < |keys| :: keys[i];
    assert keySet == StoresOf(ls) by {
      forall s | s in StoresOf(ls) ensures s in keySet {
        var i :| 0 <= i < |keys| && keys[i] == s;
      }
    }
  }

  /** Every variation is in exactly one group: the group of its own store. */
  lemma EachListingInExactlyOneGroup(ls: seq<Listing>, gs: seq<Group>, i: int)
    requires IsGrouping(ls, gs) && 0 <= i < |ls|
    ensures exists j :: 0 <= j < |gs| && gs[j].store == ls[i].store && ls[i].variation in gs[j].members
    ensures forall j, k :: 0 <= j < |gs| && 0 <= k < |gs| && gs[j].store == ls[i].store && gs[k].store == ls[i].store ==> j == k
  {
    assert ls[i].store in StoresOf(ls);
    var j :| 0 <= j < |gs| && Keys(gs)[j] == ls[i].store;
    MemberOfOwnStore(ls, i);
    assert Keys(gs)[j] == gs[j].store;
    forall j1, k1 | 0 <= j1 < |gs| && 0 <= k1 < |gs| && gs[j1].store == ls[i].store && gs[k1].store == ls[i].store
      ensures j1 == k1
    {
      assert Keys(gs)[j1] == Keys(gs)[k1];
    }
  }

  /** A listing's variation is among the members of its store. */
  lemma {:induction false} MemberOfOwnStore(ls: seq<Listing>, i: int)
    requires 0 <= i < |ls|
    ensures ls[i].variation in Members(ls, ls[i].store)
    decreases |ls|
  {
    if i < |ls| - 1 {
      var front := ls[..|ls| - 1];
      assert front[i] == ls[i];
      MemberOfOwnStore(front, i);
    }
  }

  /** Any two groupings of a lookup hold the same groups and as many of
      them: only the order of the groups may differ. */
  lemma GroupingUniqueUpToOrder(ls: seq<Listing>, gs1: seq<Group>, gs2: seq<Group>)
    requires IsGrouping(ls, gs1) && IsGrouping(ls, gs2)
    ensures |gs1| == |gs2|
    ensures forall g :: g in gs1 <==> g in gs2
  {
    GroupCountIsStoreCount(ls, gs1);
    GroupCountIsStoreCount(ls, gs2);
    forall g | g in gs1 ensures g in gs2 {
      var i :| 0 <= i < |gs1| && gs1[i] == g;
      var j :| 0 <= j < |gs2| && Keys(gs2)[j] == g.store;
    }
    forall g | g in gs2 ensures g in gs1 {
      var i :| 0 <= i < |gs2| && gs2[i] == g;
      var j :| 0 <= j < |gs1| && Keys(gs1)[j] == g.store;
    }
  }

  // ------------------------------------------------------------ example

  const Woolworths := Store(Some(1), Some("Woolworths"), None, None)
  const Coles := Store(Some(2), Some("Coles"), None, None)

  function Variation(id: int, storeId: int): ProductStore {
    ProductStore(Some(id), None, None, None, 0, Some(10), Some(storeId))
  }

  /** Three variations at two stores form two groups, of sizes two and one. */
  lemma TwoStoresExample(gs: seq<Group>)
    requires IsGrouping([Listing(Variation(3, 1), Woolworths), Listing(Variation(4, 2), Coles),
                         Listing(Variation(5, 1), Woolworths)], gs)
    ensures |gs| == 2
    ensures forall g :: g in gs && g.store == Woolworths ==> g.members == [Variation(3, 1), Variation(5, 1)]
    ensures forall g :: g in gs && g.store == Coles ==> g.members == [Variation(4, 2)]
  {
    var ls := [Listing(Variation(3, 1), Woolworths), Listing(Variation(4, 2), Coles),
               Listing(Variation(5, 1), Woolworths)];
    assert StoresOf(ls) == {Woolworths, Coles} by {
      assert ls[0].store == Woolworths && ls[1].store == Coles;
    }
    GroupCountIsStoreCount(ls, gs);
    var l1, l2 := ls[..1], ls[..2];
    assert l1[..0] == [] && l2[..1] == l1 && ls[..|ls| - 1] == l2;
    assert Members(l1, Woolworths) == [Variation(3, 1)] && Members(l1, Coles) == [];
    assert Members(l2, Woolworths) == [Variation(3, 1)] && Members(l2, Coles) == [Variation(4, 2)];
    assert Members(ls, Woolworths) == [Variation(3, 1), Variation(5, 1)];
    assert Members(ls, Coles) == [Variation(4, 2)];
  }
}
