/** The five id-keyed tables the services read and write, and the order in
    which a table lists its rows. */
module Catalogues {
  import opened Common
  import opened Entities

  // ------------------------------------------------------ listing order

  /** `m` is the least element of `s`. */
  predicate IsLeast(m: int, s: set<int>) {
    m in s && forall x :: x in s ==> m <= x
  }

  lemma MinExists(s: set<int>)
    requires s != {}
    ensures exists m :: IsLeast(m, s)
  {
    if forall x :: x !in s { assert false; }
    var y :| y in s;
    var rest := s - {y};
    if rest == {} {
      assert s == {y};
      assert IsLeast(y, s);
    } else {
      MinExists(rest);
      var m :| IsLeast(m, rest);
      assert forall x :: x in s ==> x == y || x in rest;
      if y < m {
        assert IsLeast(y, s);
      } else {
        assert IsLeast(m, s);
      }
    }
  }

  /** The least element of a non-empty set. */
  function Least(s: set<int>): (m: int)
    requires s != {}
    ensures m in s && forall x :: x in s ==> m <= x
  {
    MinExists(s);
    var m :| IsLeast(m, s);
    m
  }

  /** The ids of a table in ascending order. Ids are handed out in
      increasing order, so this is also the order the rows were inserted. */
  function SortedIds(s: set<int>): (r: seq<int>)
    ensures |r| == |s|
    ensures forall i :: 0 <= i < |r| ==> r[i] in s
    ensures forall x :: x in s ==> x in r
    ensures forall i, j :: 0 <= i < j < |r| ==> r[i] < r[j]
    decreases |s|
  {
    if s == {} then []
    else
      var m := Least(s);
      var rest := SortedIds(s - {m});
      PrependLeast(s, m, rest);
      [m] + rest
  }

  /** Putting a set's least element before the ascending list of the others
      gives the ascending list of the whole set. */
  lemma PrependLeast(s: set<int>, m: int, rest: seq<int>)
    requires m in s && forall x :: x in s ==> m <= x
    requires |rest| == |s - {m}|
    requires forall i :: 0 <= i < |rest| ==> rest[i] in s - {m}
    requires forall x :: x in s - {m} ==> x in rest
    requires forall i, j :: 0 <= i < j < |rest| ==> rest[i] < rest[j]
    ensures |[m] + rest| == |s|
    ensures forall i :: 0 <= i < |[m] + rest| ==> ([m] + rest)[i] in s
    ensures forall x :: x in s ==> x in [m] + rest
    ensures forall i, j :: 0 <= i < j < |[m] + rest| ==> ([m] + rest)[i] < ([m] + rest)[j]
  {
    var r := [m] + rest;
    assert |s - {m}| == |s| - 1;
    assert forall i :: 1 <= i < |r| ==> r[i] == rest[i - 1];
    assert forall j :: 0 <= j < |rest| ==> m < rest[j];
    assert forall x :: x in s ==> x == m || x in s - {m};
  }

  /** `findAll()`: every row of a table, in id order. */
  function FindAll<T>(table: map<int, T>): (r: seq<T>)
    ensures |r| == |table|
    ensures forall i :: 0 <= i < |r| ==> r[i] == table[SortedIds(table.Keys)[i]]
  {
    var ids := SortedIds(table.Keys);
    assert |table.Keys| == |table|;
    seq(|ids|, i requires 0 <= i < |ids| => table[ids[i]])
  }

  /** `findAll()` returns every row of the table and nothing else. */
  lemma FindAllValues<T>(table: map<int, T>)
    ensures forall v :: v in FindAll(table) <==> v in table.Values
  {
    var ids := SortedIds(table.Keys);
    var rows := FindAll(table);
    forall v | v in table.Values ensures v in rows {
      var k :| k in table && table[k] == v;
      var i :| 0 <= i < |ids| && ids[i] == k;
      assert rows[i] == v;
    }
  }

  /** A table whose rows are stored under their own ids lists every row,
      the i-th carrying the i-th smallest id. */
  lemma FindAllInIdOrder<T>(table: map<int, T>, id: T -> Option<int>)
    requires forall k :: k in table ==> id(table[k]) == Some(k)
    ensures forall v :: v in table.Values ==> v in FindAll(table)
    ensures forall i :: 0 <= i < |FindAll(table)| ==> id(FindAll(table)[i]) == Some(SortedIds(table.Keys)[i])
  {
    FindAllValues(table);
    var ids := SortedIds(table.Keys);
    assert forall i :: 0 <= i < |ids| ==> ids[i] in table;
  }

  // ------------------------------------------------------------- state

  /** The contents of all tables and the next id the tables will hand out. */
  datatype Tables = Tables(
    brands: map<int, Brand>,
    categories: map<int, Category>,
    stores: map<int, Store>,
    products: map<int, Product>,
    variations: map<int, ProductStore>,
    nextId: int)

  /** Every row is stored under its own id, below the next fresh id. */
  ghost predicate IdsAssigned(t: Tables) {
    && (forall k :: k in t.brands ==> t.brands[k].id == Some(k) && k < t.nextId)
    && (forall k :: k in t.categories ==> t.categories[k].id == Some(k) && k < t.nextId)
    && (forall k :: k in t.stores ==> t.stores[k].id == Some(k) && k < t.nextId)
    && (forall k :: k in t.products ==> t.products[k].id == Some(k) && k < t.nextId)
    && (forall k :: k in t.variations ==> t.variations[k].id == Some(k) && k < t.nextId)
  }

  /** A nullable foreign key either is null or names a row of `table`. */
  predicate Resolves<T>(key: Option<int>, table: map<int, T>) {
    key.Some? ==> key.value in table
  }

  /** The database's foreign-key constraints: a product's brand and category
      exist, and a variation names an existing product and store. */
  ghost predicate ReferencesResolve(t: Tables) {
    && (forall k :: k in t.products ==> Resolves(t.products[k].brandId, t.brands))
    && (forall k :: k in t.products ==> Resolves(t.products[k].categoryId, t.categories))
    && (forall k :: k in t.variations ==> t.variations[k].productId.Some? && t.variations[k].productId.value in t.products)
    && (forall k :: k in t.variations ==> t.variations[k].storeId.Some? && t.variations[k].storeId.value in t.stores)
  }

  ghost predicate WellFormed(t: Tables) {
    IdsAssigned(t) && ReferencesResolve(t)
  }

  /** The repositories behind the services. */
  class Catalogue {
    var brands: map<int, Brand>
    var categories: map<int, Category>
    var stores: map<int, Store>
    var products: map<int, Product>
    var variations: map<int, ProductStore>
    var nextId: int

    function State(): Tables
      reads this
    {
      Tables(brands, categories, stores, products, variations, nextId)
    }

    ghost predicate Valid()
      reads this
    {
      WellFormed(State())
    }

    /** Empty tables; the first id handed out is 1. */
    constructor ()
      ensures Valid()
      ensures State() == Tables(map[], map[], map[], map[], map[], 1)
    {
      brands, categories, stores, products, variations := map[], map[], map[], map[], map[];
      nextId := 1;
    }

    /** The identity column's next value: an id no table uses yet. */
    method NewId() returns (id: int)
      requires Valid()
      modifies this
      ensures Valid()
      ensures id == old(nextId)
      ensures id !in brands && id !in categories && id !in stores && id !in products && id !in variations
      ensures State() == old(State()).(nextId := id + 1)
    {
      id := nextId;
      nextId := nextId + 1;
    }

    /** Some product refers to brand `id`. */
    predicate BrandInUse(id: int)
      reads this
    {
      exists k :: k in products && products[k].brandId == Some(id)
    }

    predicate CategoryInUse(id: int)
      reads this
    {
      exists k :: k in products && products[k].categoryId == Some(id)
    }

    /** Some variation refers to product `id`. */
    predicate ProductInUse(id: int)
      reads this
    {
      exists k :: k in variations && variations[k].productId == Some(id)
    }

    predicate StoreInUse(id: int)
      reads this
    {
      exists k :: k in variations && variations[k].storeId == Some(id)
    }
  }
}
