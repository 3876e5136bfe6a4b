/** `service.ProductServiceImpl`, the older product service: name and
    description only, and `ProductNotFoundException` for a missing id. Its
    `delete` has no `return` after the row is removed, so it reports the
    product as not found even when it has just deleted it. */
module LegacyProductService {
  import opened Common
  import opened Entities
  import opened ObjectMapper
  import opened Catalogues

  /** `getAll`: one response per product, in id order. */
  method GetAll(db: Catalogue) returns (r: seq<ProductResponse>)
    requires db.Valid()
    ensures |r| == |db.products|
    ensures forall i :: 0 <= i < |r| ==> r[i] == ProductToDto(db.products[SortedIds(db.products.Keys)[i]])
    ensures forall p :: p in db.products.Values ==> ProductToDto(p) in r
    ensures forall i :: 0 <= i < |r| ==> r[i].id == Some(SortedIds(db.products.Keys)[i])
  {
    var rows := FindAll(db.products);
    r := ProductDtos(rows);
    FindAllInIdOrder(db.products, (p: Product) => p.id);
  }

  /** `getById`: an absent id throws `ProductNotFoundException`. */
  method GetById(db: Catalogue, id: int) returns (r: Result<ProductResponse>)
    requires db.Valid()
    ensures r.Ok? <==> id in db.products
    ensures r.Ok? ==> r.value == ProductToDto(db.products[id]) && r.value.id == Some(id)
    ensures r.Err? ==> r.error == ProductNotFound(id)
  {
    if id in db.products {
      r := Ok(ProductToDto(db.products[id]));
    } else {
      r := Err(ProductNotFound(id));
    }
  }

  /** `create`: a product with only a name and a description. */
  method Create(db: Catalogue, request: LegacyProductRequest) returns (saved: Product)
    requires db.Valid()
    modifies db
    ensures db.Valid()
    ensures saved == Product(Some(old(db.nextId)), request.name, request.description, None, None, None)
    ensures old(db.nextId) !in old(db.products)
    ensures db.State() == old(db.State()).(products := old(db.products)[old(db.nextId) := saved], nextId := old(db.nextId) + 1)
  {
    var product := Product(None, request.name, request.description, None, None, None);
    var id := db.NewId();
    saved := product.(id := Some(id));
    db.products := db.products[id := saved];
  }

  /** `update`: replace name and description and keep everything else; an
      absent id fails and nothing is saved. */
  method Update(db: Catalogue, id: int, request: LegacyProductRequest) returns (r: Result<Product>)
    requires db.Valid()
    modifies db
    ensures db.Valid()
    ensures id in old(db.products) ==>
      && r == Ok(old(db.products)[id].(name := request.name, description := request.description))
      && db.State() == old(db.State()).(products := old(db.products)[id := r.value])
    ensures id !in old(db.products) ==>
      r == Err(ProductNotFound(id)) && db.State() == old(db.State())
  {
    if id in db.products {
      var existing := db.products[id];
      existing := existing.(name := request.name, description := request.description);
      db.products := db.products[id := existing];
      r := Ok(existing);
    } else {
      r := Err(ProductNotFound(id));
    }
  }

  /** `delete` as written: a present, unreferenced product is removed and
      the call still throws `ProductNotFoundException`; an absent id throws
      the same and removes nothing. No call of it reports success. */
  method Delete(db: Catalogue, id: int) returns (outcome: Outcome)
    requires db.Valid()
    modifies db
    ensures db.Valid()
    ensures outcome.Fail?
    ensures id !in old(db.products) ==>
      outcome == Fail(ProductNotFound(id)) && db.State() == old(db.State())
    ensures id in old(db.products) && old(db.ProductInUse(id)) ==>
      outcome == Fail(ForeignKeyViolation(ProductKind, id)) && db.State() == old(db.State())
    ensures id in old(db.products) && !old(db.ProductInUse(id)) ==>
      outcome == Fail(ProductNotFound(id)) && db.State() == old(db.State()).(products := old(db.products) - {id})
  {
    if id in db.products {
      if db.ProductInUse(id) {
        return Fail(ForeignKeyViolation(ProductKind, id));
      }
      db.products := db.products - {id};
    }
    outcome := Fail(ProductNotFound(id));
  }

  /** A caller that deletes a product it has just created is told the
      product was not found, although the product is gone. */
  method DeleteJustCreated(db: Catalogue, request: LegacyProductRequest) returns (outcome: Outcome)
    requires db.Valid()
    modifies db
    ensures db.Valid()
    ensures outcome == Fail(ProductNotFound(old(db.nextId)))
    ensures old(db.nextId) !in db.products
    ensures db.products == old(db.products)
  {
    var saved := Create(db, request);
    var id := saved.id.value;
    forall k | k in db.variations ensures db.variations[k].productId != Some(id) {
      assert k in old(db.variations);
    }
    outcome := Delete(db, id);
  }
}
