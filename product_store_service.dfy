/** `ProductStoreServiceImpl`: CRUD over the variation table. Create and
    update resolve the product first and the store second; the first id that
    does not resolve is the one the failure names, and nothing is saved. */
module ProductStoreService {
  import opened Common
  import opened Entities
  import opened ObjectMapper
  import opened Catalogues

  /** `getAll`: one response per variation, in id order: the
      i-th response carries the i-th smallest id. */
  method GetAll(db: Catalogue) returns (r: seq<ProductStoreDto>)
    requires db.Valid()
    ensures |r| == |db.variations|
    ensures forall i :: 0 <= i < |r| ==> r[i] == ProductStoreToDto(db.variations[SortedIds(db.variations.Keys)[i]])
    ensures forall v :: v in db.variations.Values ==> ProductStoreToDto(v) in r
    ensures forall i :: 0 <= i < |r| ==> r[i].id == Some(SortedIds(db.variations.Keys)[i])
  {
    var rows := FindAll(db.variations);
    r := ProductStoreDtos(rows);
    FindAllInIdOrder(db.variations, (v: ProductStore) => v.id);
  }

  /** `getById`: an absent id fails with the message "Product not found". */
  method GetById(db: Catalogue, id: int) returns (r: Result<ProductStoreDto>)
    requires db.Valid()
    ensures r.Ok? <==> id in db.variations
    ensures r.Ok? ==> r.value == ProductStoreToDto(db.variations[id]) && r.value.id == Some(id)
    ensures r.Err? ==> r.error == ResourceNotFound(ProductKind, id)
  {
    if id in db.variations {
      r := Ok(ProductStoreToDto(db.variations[id]));
    } else {
      r := Err(ResourceNotFound(ProductKind, id));
    }
  }

  /** The failure of resolving a request's product and then its store, if
      either is missing. */
  function ResolutionFailure(t: Tables, request: ProductStoreRequest): (r: Option<Failure>)
    ensures r.None? <==> request.productId in t.products && request.storeId in t.stores
    ensures request.productId !in t.products ==> r == Some(ResourceNotFound(ProductKind, request.productId))
    ensures request.productId in t.products && request.storeId !in t.stores ==> r == Some(ResourceNotFound(StoreKind, request.storeId))
  {
    if request.productId !in t.products then Some(ResourceNotFound(ProductKind, request.productId))
    else if request.storeId !in t.stores then Some(ResourceNotFound(StoreKind, request.storeId))
    else None
  }

  /** `create`: the request's fields, the resolved product and store, and
      the id the table hands out. */
  method Create(db: Catalogue, request: ProductStoreRequest) returns (r: Result<ProductStore>)
    requires db.Valid()
    modifies db
    ensures db.Valid()
    ensures ResolutionFailure(old(db.State()), request).Some? ==>
      r == Err(ResolutionFailure(old(db.State()), request).value) && db.State() == old(db.State())
    ensures ResolutionFailure(old(db.State()), request).None? ==>
      && r == Ok(ProductStore(Some(old(db.nextId)), request.name, request.url, request.imageUrl, request.price,
                              Some(request.productId), Some(request.storeId)))
      && old(db.nextId) !in old(db.variations)
      && db.State() == old(db.State()).(variations := old(db.variations)[old(db.nextId) := r.value], nextId := old(db.nextId) + 1)
  {
    var variation := ProductStoreToEntity(request);
    if request.productId !in db.products {
      return Err(ResourceNotFound(ProductKind, request.productId));
    }
    variation := variation.(productId := Some(request.productId));
    if request.storeId !in db.stores {
      return Err(ResourceNotFound(StoreKind, request.storeId));
    }
    variation := variation.(storeId := Some(request.storeId));
    var id := db.NewId();
    variation := variation.(id := Some(id));
    db.variations := db.variations[id := variation];
    r := Ok(variation);
  }

  /** `update`: an absent variation fails first (with the message "Product
      not found"); otherwise name, url, image and price are overwritten and
      the product and then the store are resolved again. */
  method Update(db: Catalogue, id: int, request: ProductStoreRequest) returns (r: Result<ProductStore>)
    requires db.Valid()
    modifies db
    ensures db.Valid()
    ensures id !in old(db.variations) ==>
      r == Err(ResourceNotFound(ProductKind, id)) && db.State() == old(db.State())
    ensures id in old(db.variations) && ResolutionFailure(old(db.State()), request).Some? ==>
      r == Err(ResolutionFailure(old(db.State()), request).value) && db.State() == old(db.State())
    ensures id in old(db.variations) && ResolutionFailure(old(db.State()), request).None? ==>
      && r == Ok(ProductStore(Some(id), request.name, request.url, request.imageUrl, request.price,
                              Some(request.productId), Some(request.storeId)))
      && db.State() == old(db.State()).(variations := old(db.variations)[id := r.value])
  {
    if id !in db.variations {
      return Err(ResourceNotFound(ProductKind, id));
    }
    var existing := db.variations[id];
    existing := existing.(name := request.name, url := request.url, imageUrl := request.imageUrl, price := request.price);
    if request.productId !in db.products {
      return Err(ResourceNotFound(ProductKind, request.productId));
    }
    existing := existing.(productId := Some(request.productId));
    if request.storeId !in db.stores {
      return Err(ResourceNotFound(StoreKind, request.storeId));
    }
    existing := existing.(storeId := Some(request.storeId));
    db.variations := db.variations[id := existing];
    r := Ok(existing);
  }

  /** `delete`: remove exactly the given row; an absent id fails and removes
      nothing. No other table refers to a variation. */
  method Delete(db: Catalogue, id: int) returns (outcome: Outcome)
    requires db.Valid()
    modifies db
    ensures db.Valid()
    ensures id !in old(db.variations) ==>
      outcome == Fail(ResourceNotFound(ProductStoreKind, id)) && db.State() == old(db.State())
    ensures id in old(db.variations) ==>
      outcome == Done && db.State() == old(db.State()).(variations := old(db.variations) - {id})
  {
    if id in db.variations {
      db.variations := db.variations - {id};
      outcome := Done;
    } else {
      outcome := Fail(ResourceNotFound(ProductStoreKind, id));
    }
  }

  /** A variation just created is found again under the id it was given,
      with the request's fields. */
  method CreateThenGet(db: Catalogue, request: ProductStoreRequest) returns (r: Result<ProductStoreDto>)
    requires db.Valid()
    requires request.productId in db.products && request.storeId in db.stores
    modifies db
    ensures db.Valid()
    ensures r == Ok(ProductStoreDto(Some(old(db.nextId)), request.name, request.url, request.imageUrl, request.price))
  {
    var created := Create(db, request);
    r := GetById(db, created.value.id.value);
  }
}
