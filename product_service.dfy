/** `service.impl.ProductServiceImpl`: product CRUD with optional brand and
    category links, the free-text search, and the per-store comparison of a
    product's variations. A missing id throws `ResourceNotFoundException`. */
module ProductService {
  import opened Common
  import opened Entities
  import opened Strings
  import opened ObjectMapper
  import opened Catalogues
  import opened StoreGrouping
  import opened Sequences
  import SearchRequestValidator
  import ProductRepository

  /** `getAll`: one response per product, in id order: the
      i-th response carries the i-th smallest id. */
  method GetAll(db: Catalogue) returns (r: seq<ProductResponse>)
    requires db.Valid()
    ensures |r| == |db.products|
    ensures forall i :: 0 <= i < |r| ==> r[i] == ProductToDto(db.products[SortedIds(db.products.Keys)[i]])
    ensures forall p :: p in db.products.Values ==> ProductToDto(p) in r
    ensures forall i :: 0 <= i < |r| ==> r[i].id == Some(SortedIds(db.products.Keys)[i])
  {
    var rows := FindAll(db.products);
    r := ProductDtos(rows);
    FindAllInIdOrder(db.products, (p: Product) => p.id);
  }

  /** `getById`: the product's response, or not-found for an absent id. */
  method GetById(db: Catalogue, id: int) returns (r: Result<ProductResponse>)
    requires db.Valid()
    ensures r.Ok? <==> id in db.products
    ensures r.Ok? ==> r.value == ProductToDto(db.products[id]) && r.value.id == Some(id)
    ensures r.Err? ==> r.error == ResourceNotFound(ProductKind, id)
  {
    if id in db.products {
      r := Ok(ProductToDto(db.products[id]));
    } else {
      r := Err(ResourceNotFound(ProductKind, id));
    }
  }

  /** The failure of resolving a request's brand and then its category, if a
      non-null id among them names no row. A null id is not looked up. */
  function LinkFailure(t: Tables, request: ProductRequest): (r: Option<Failure>)
    ensures r.None? <==> Resolves(request.brandId, t.brands) && Resolves(request.categoryId, t.categories)
    ensures !Resolves(request.brandId, t.brands) ==> r == Some(ResourceNotFound(BrandKind, request.brandId.value))
    ensures Resolves(request.brandId, t.brands) && !Resolves(request.categoryId, t.categories) ==>
      r == Some(ResourceNotFound(CategoryKind, request.categoryId.value))
  {
    if request.brandId.Some? && request.brandId.value !in t.brands then
      Some(ResourceNotFound(BrandKind, request.brandId.value))
    else if request.categoryId.Some? && request.categoryId.value !in t.categories then
      Some(ResourceNotFound(CategoryKind, request.categoryId.value))
    else None
  }

  /** `create`: name, description and image from the request, the resolved
      brand and category (or none), under the id the table hands out. */
  method Create(db: Catalogue, request: ProductRequest) returns (r: Result<Product>)
    requires db.Valid()
    modifies db
    ensures db.Valid()
    ensures LinkFailure(old(db.State()), request).Some? ==>
      r == Err(LinkFailure(old(db.State()), request).value) && db.State() == old(db.State())
    ensures LinkFailure(old(db.State()), request).None? ==>
      && r == Ok(Product(Some(old(db.nextId)), request.name, request.description, request.imageUrl,
                         request.brandId, request.categoryId))
      && old(db.nextId) !in old(db.products)
      && db.State() == old(db.State()).(products := old(db.products)[old(db.nextId) := r.value], nextId := old(db.nextId) + 1)
  {
    var product := Product(None, request.name, request.description, request.imageUrl, None, None);
    if request.brandId.Some? {
      if request.brandId.value !in db.brands {
        return Err(ResourceNotFound(BrandKind, request.brandId.value));
      }
      product := product.(brandId := request.brandId);
    }
    if request.categoryId.Some? {
      if request.categoryId.value !in db.categories {
        return Err(ResourceNotFound(CategoryKind, request.categoryId.value));
      }
      product := product.(categoryId := request.categoryId);
    }
    var id := db.NewId();
    product := product.(id := Some(id));
    db.products := db.products[id := product];
    r := Ok(product);
  }

  /** `update`: a full replace. Name, description and image come from the
      request, and a null brand or category id clears the link instead of
      keeping the old one. An absent product fails first; then the brand and
      the category are resolved; a failure saves nothing. */
  method Update(db: Catalogue, id: int, request: ProductRequest) returns (r: Result<Product>)
    requires db.Valid()
    modifies db
    ensures db.Valid()
    ensures id !in old(db.products) ==>
      r == Err(ResourceNotFound(ProductKind, id)) && db.State() == old(db.State())
    ensures id in old(db.products) && LinkFailure(old(db.State()), request).Some? ==>
      r == Err(LinkFailure(old(db.State()), request).value) && db.State() == old(db.State())
    ensures id in old(db.products) && LinkFailure(old(db.State()), request).None? ==>
      && r == Ok(Product(Some(id), request.name, request.description, request.imageUrl,
                         request.brandId, request.categoryId))
      && db.State() == old(db.State()).(products := old(db.products)[id := r.value])
  {
    if id !in db.products {
      return Err(ResourceNotFound(ProductKind, id));
    }
    var existing := db.products[id];
    existing := existing.(name := request.name, description := request.description, imageUrl := request.imageUrl);
    if request.brandId.Some? {
      if request.brandId.value !in db.brands {
        return Err(ResourceNotFound(BrandKind, request.brandId.value));
      }
      existing := existing.(brandId := request.brandId);
    } else {
      existing := existing.(brandId := None);
    }
    if request.categoryId.Some? {
      if request.categoryId.value !in db.categories {
        return Err(ResourceNotFound(CategoryKind, request.categoryId.value));
      }
      existing := existing.(categoryId := request.categoryId);
    } else {
      existing := existing.(categoryId := None);
    }
    db.products := db.products[id := existing];
    r := Ok(existing);
  }

  /** `delete`: remove exactly the given row. An absent id fails and removes
      nothing; so does a product that a variation still refers to, which the
      database's foreign key refuses. */
  method Delete(db: Catalogue, id: int) returns (outcome: Outcome)
    requires db.Valid()
    modifies db
    ensures db.Valid()
    ensures id !in old(db.products) ==>
      outcome == Fail(ResourceNotFound(ProductKind, id)) && db.State() == old(db.State())
    ensures id in old(db.products) && old(db.ProductInUse(id)) ==>
      outcome == Fail(ForeignKeyViolation(ProductKind, id)) && db.State() == old(db.State())
    ensures id in old(db.products) && !old(db.ProductInUse(id)) ==>
      outcome == Done && db.State() == old(db.State()).(products := old(db.products) - {id})
  {
    if id !in db.products {
      outcome := Fail(ResourceNotFound(ProductKind, id));
    } else if db.ProductInUse(id) {
      outcome := Fail(ForeignKeyViolation(ProductKind, id));
    } else {
      db.products := db.products - {id};
      outcome := Done;
    }
  }

  // ---------------------------------------------------------------- search

  /** The repository arguments as `search` computes them: every field is
      lower-cased, so a null field is dereferenced and throws. */
  function SearchArgumentsAsWritten(request: SearchRequest): (r: Result<(string, Option<string>, Option<string>)>)
    ensures r.Ok? <==> request.name.Some? && request.category.Some? && request.brand.Some?
    ensures r.Err? ==> r.error == NullPointer
  {
    match (request.name, request.category, request.brand)
    case (Some(name), Some(category), Some(brand)) => Ok((Lower(name), Some(Lower(category)), Some(Lower(brand))))
    case _ => Err(NullPointer)
  }

  /** The repository arguments as the query means them: a null category or
      brand stays null (no constraint), and a null name is the empty pattern,
      which every named product contains. */
  function SearchArguments(request: SearchRequest): (r: (string, Option<string>, Option<string>))
    ensures r.1.None? <==> request.category.None?
    ensures r.2.None? <==> request.brand.None?
    ensures |r.0| == (if request.name.Some? then |request.name.value| else 0)
  {
    (if request.name.Some? then Lower(request.name.value) else "",
     if request.category.Some? then Some(Lower(request.category.value)) else None,
     if request.brand.Some? then Some(Lower(request.brand.value)) else None)
  }

  /** The validator accepts a request with a null field, and `search` as
      written then throws: the name-only request of the validator's own
      cases fails. */
  lemma ValidRequestThrowsAsWritten()
    ensures SearchRequestValidator.IsValid(Some(SearchRequest(Some("name"), Some(""), None)))
    ensures SearchArgumentsAsWritten(SearchRequest(Some("name"), Some(""), None)) == Err(NullPointer)
  {
  }

  /** Where the code as written does not throw, it passes the same arguments
      as the intended reading. */
  lemma SearchArgumentsAgree(request: SearchRequest)
    requires SearchArgumentsAsWritten(request).Ok?
    ensures SearchArgumentsAsWritten(request).value == SearchArguments(request)
  {
  }

  /** A null category or brand in the request puts no constraint on the
      product's category or brand. */
  lemma NullFieldsImposeNoConstraint(request: SearchRequest, p: Product, brands: map<int, Brand>, categories: map<int, Category>)
    requires request.category.None? && request.brand.None?
    ensures ProductRepository.ProductMatches(p, brands, categories, SearchArguments(request).0, SearchArguments(request).1, SearchArguments(request).2)
        <==> ProductRepository.LikeContains(p.name, SearchArguments(request).0)
  {
  }

  /** A product the search for `request` keeps. */
  predicate Hit(t: Tables, request: SearchRequest, p: Product) {
    var args := SearchArguments(request);
    ProductRepository.ProductMatches(p, t.brands, t.categories, args.0, args.1, args.2)
  }

  /** The responses of the products the search for `request` keeps. */
  ghost function HitResponses(t: Tables, request: SearchRequest): set<ProductResponse> {
    set p | p in t.products.Values && Hit(t, request, p) :: ProductToDto(p)
  }

  lemma {:induction false} DtosOfMembers(found: seq<Product>)
    ensures forall p :: p in found ==> ProductToDto(p) in ProductDtos(found)
  {
    if found != [] {
      DtosOfMembers(found[1..]);
      assert ProductDtos(found) == [ProductToDto(found[0])] + ProductDtos(found[1..]);
    }
  }

  /** The responses of the products the repository finds in the scanned
      table are exactly the responses of the hits. */
  lemma {:induction false} FoundResponses(t: Tables, request: SearchRequest, rows: seq<Product>, found: seq<Product>)
    requires rows == FindAll(t.products)
    requires found == ProductRepository.Search(rows, t.brands, t.categories,
      SearchArguments(request).0, SearchArguments(request).1, SearchArguments(request).2)
    ensures forall resp :: resp in ProductDtos(found) <==> resp in HitResponses(t, request)
  {
    FindAllValues(t.products);
    DtosOfMembers(found);
    var r := ProductDtos(found);
    forall resp | resp in r ensures resp in HitResponses(t, request) {
      var i :| 0 <= i < |r| && r[i] == resp;
      assert found[i] in found;
    }
  }

  /** `search`: the responses of exactly the products that match the
      request's lower-cased fields. They come in ascending id order (the
      order the model gives the scanned table), so each matching product's
      response appears once. */
  method Search(db: Catalogue, request: SearchRequest) returns (r: seq<ProductResponse>)
    requires db.Valid()
    ensures |r| <= |db.products|
    ensures forall resp :: resp in r <==> resp in HitResponses(db.State(), request)
    ensures forall i :: 0 <= i < |r| ==> r[i].id.Some?
    ensures forall i, j :: 0 <= i < j < |r| ==> r[i].id.value < r[j].id.value
  {
    var args := SearchArguments(request);
    var rows := FindAll(db.products);
    var found := ProductRepository.Search(rows, db.brands, db.categories, args.0, args.1, args.2);
    r := ProductDtos(found);
    FoundResponses(db.State(), request, rows, found);
    IdsAscending(db.products, rows, found);
  }

  /** The id of a stored product, used as its position in the scan. */
  function IdKey(p: Product): int {
    if p.id.Some? then p.id.value else 0
  }

  /** Products picked in order out of the scanned table carry ascending ids. */
  lemma IdsAscending(products: map<int, Product>, rows: seq<Product>, found: seq<Product>)
    requires forall k :: k in products ==> products[k].id == Some(k)
    requires rows == FindAll(products)
    requires IsSubsequence(found, rows)
    ensures forall i :: 0 <= i < |found| ==> found[i].id.Some?
    ensures forall i, j :: 0 <= i < j < |found| ==> found[i].id.value < found[j].id.value
  {
    FindAllInIdOrder(products, (p: Product) => p.id);
    var ids := SortedIds(products.Keys);
    assert forall i :: 0 <= i < |rows| ==> IdKey(rows[i]) == ids[i];
    SubsequenceAscending(found, rows, IdKey);
    SubsequenceMembers(found, rows);
    forall i | 0 <= i < |found| ensures found[i].id.Some? {
      assert found[i] in rows;
    }
  }

  // ------------------------------------------------ variations by product

  /** `findAllByProduct`: the product's variations picked in order out of
      the scanned table, each as often as it was scanned, and nothing else. */
  function OfProduct(vs: seq<ProductStore>, productId: int): (r: seq<ProductStore>)
    ensures forall v :: v in r <==> v in vs && v.productId == Some(productId)
    ensures IsSubsequence(r, vs)
    ensures forall v ::
      multiset(r)[v] == (if v.productId == Some(productId) then multiset(vs)[v] else 0)
  {
    if vs == [] then []
    else
      var rest := OfProduct(vs[1..], productId);
      assert vs == [vs[0]] + vs[1..];
      assert forall v :: v in vs <==> v == vs[0] || v in vs[1..];
      if vs[0].productId == Some(productId) then
        var r := [vs[0]] + rest;
        assert r[1..] == rest;
        r
      else rest
  }

  /** The product's variations, in order, each joined with its store. */
  function ListingsOf(vs: seq<ProductStore>, productId: int, stores: map<int, Store>): (r: seq<Listing>)
    requires forall v :: v in vs ==> v.storeId.Some? && v.storeId.value in stores
    ensures Variations(r) == OfProduct(vs, productId)
    ensures forall i :: 0 <= i < |r| ==>
      r[i].variation.storeId.Some? && r[i].variation.storeId.value in stores && r[i].store == stores[r[i].variation.storeId.value]
  {
    var ws := OfProduct(vs, productId);
    var r := seq(|ws|, i requires 0 <= i < |ws| => Listing(ws[i], stores[ws[i].storeId.value]));
    assert Variations(r) == ws;
    r
  }

  function Lookup(t: Tables, productId: int): seq<Listing>
    requires ReferencesResolve(t)
  {
    var rows := FindAll(t.variations);
    FindAllValues(t.variations);
    ListingsOf(rows, productId, t.stores)
  }

  /** A product has no variation exactly when its lookup is empty. */
  lemma LookupEmptyIffUnused(t: Tables, productId: int)
    requires ReferencesResolve(t)
    ensures Lookup(t, productId) == [] <==>
      forall k :: k in t.variations ==> t.variations[k].productId != Some(productId)
  {
    var rows := FindAll(t.variations);
    FindAllValues(t.variations);
    var ws := OfProduct(rows, productId);
    assert |Lookup(t, productId)| == |ws|;
    forall k | k in t.variations && ws == [] ensures t.variations[k].productId != Some(productId) {
      assert t.variations[k] in rows;
    }
    if ws != [] {
      assert ws[0] in rows;
    }
  }

  /** The comparison entries for a grouping, one per store. */
  function GroupDtos(gs: seq<Group>): (r: seq<StoreDto>)
    ensures |r| == |gs|
    ensures forall i :: 0 <= i < |gs| ==> r[i] == GroupToStoreDto(gs[i].store, gs[i].members)
  {
    seq(|gs|, i requires 0 <= i < |gs| => GroupToStoreDto(gs[i].store, gs[i].members))
  }

  /** The number of variations listed over all stores. */
  function TotalListed(stores: seq<StoreDto>): nat {
    if stores == [] then 0 else |stores[0].variations| + TotalListed(stores[1..])
  }

  lemma {:induction false} TotalListedIsTotalSize(gs: seq<Group>)
    ensures TotalListed(GroupDtos(gs)) == TotalSize(gs)
  {
    if gs != [] {
      assert GroupDtos(gs)[1..] == GroupDtos(gs[1..]);
      TotalListedIsTotalSize(gs[1..]);
    }
  }

  /** `getVariationsByProduct`: an absent product fails; otherwise the
      product's id, name and image, with `stores` left null when the product
      has no variation, and else one entry per distinct store holding that
      store's variations, all of them, in lookup order. The order of the
      entries is that of a hash map and is not fixed here. */
  method GetVariationsByProduct(db: Catalogue, productId: int) returns (r: Result<ProductVariationResponse>)
    requires db.Valid()
    ensures r.Ok? <==> productId in db.products
    ensures r.Err? ==> r.error == ResourceNotFound(ProductKind, productId)
    ensures r.Ok? ==>
      && r.value.productId == Some(productId)
      && r.value.productName == db.products[productId].name
      && r.value.productImageUrl == db.products[productId].imageUrl
    ensures r.Ok? ==> (r.value.stores.None? <==> !db.ProductInUse(productId))
    ensures r.Ok? && r.value.stores.Some? ==>
      && (exists gs :: IsGrouping(Lookup(db.State(), productId), gs) && r.value.stores.value == GroupDtos(gs))
      && TotalListed(r.value.stores.value) == |Lookup(db.State(), productId)|
  {
    if productId !in db.products {
      return Err(ResourceNotFound(ProductKind, productId));
    }
    var product := db.products[productId];
    var response := ProductVariationResponse(product.id, product.name, product.imageUrl, None);
    var listings := Lookup(db.State(), productId);
    LookupEmptyIffUnused(db.State(), productId);
    if listings == [] {
      return Ok(response);
    }
    var gs := GroupByStore(listings);
    var stores := GroupDtos(gs);
    GroupingPreservesCount(listings, gs);
    TotalListedIsTotalSize(gs);
    r := Ok(response.(stores := Some(stores)));
  }

  /** A product just created has no variations: its comparison has no
      stores. */
  method CreateThenCompare(db: Catalogue, request: ProductRequest) returns (r: Result<ProductVariationResponse>)
    requires db.Valid()
    requires request.brandId.None? && request.categoryId.None?
    modifies db
    ensures db.Valid()
    ensures r == Ok(ProductVariationResponse(Some(old(db.nextId)), request.name, request.imageUrl, None))
  {
    var created := Create(db, request);
    var id := created.value.id.value;
    forall k | k in db.variations ensures db.variations[k].productId != Some(id) {
      assert k in old(db.variations);
    }
    r := GetVariationsByProduct(db, id);
  }
}
