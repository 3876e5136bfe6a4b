/** `BrandServiceImpl`: brand CRUD over the brand table. A missing id
    throws `ResourceNotFoundException`. */
module BrandService {
  import opened Common
  import opened Entities
  import opened ObjectMapper
  import opened Catalogues

  /** `getAll`: one response per brand, in id order: the
      i-th response carries the i-th smallest id. */
  method GetAll(db: Catalogue) returns (r: seq<BrandResponse>)
    requires db.Valid()
    ensures |r| == |db.brands|
    ensures forall i :: 0 <= i < |r| ==> r[i] == BrandToDto(db.brands[SortedIds(db.brands.Keys)[i]])
    ensures forall b :: b in db.brands.Values ==> BrandToDto(b) in r
    ensures forall i :: 0 <= i < |r| ==> r[i].id == Some(SortedIds(db.brands.Keys)[i])
  {
    var rows := FindAll(db.brands);
    r := BrandDtos(rows);
    FindAllInIdOrder(db.brands, (b: Brand) => b.id);
  }

  /** `getById`: the brand's response, or not-found for an absent id. */
  method GetById(db: Catalogue, id: int) returns (r: Result<BrandResponse>)
    requires db.Valid()
    ensures r.Ok? <==> id in db.brands
    ensures r.Ok? ==> r.value == BrandToDto(db.brands[id]) && r.value.id == Some(id)
    ensures r.Err? ==> r.error == ResourceNotFound(BrandKind, id)
  {
    if id in db.brands {
      r := Ok(BrandToDto(db.brands[id]));
    } else {
      r := Err(ResourceNotFound(BrandKind, id));
    }
  }

  /** `create`: a new brand with the request's name and description, under
      the id the table hands out. */
  method Create(db: Catalogue, request: BrandRequest) returns (saved: Brand)
    requires db.Valid()
    modifies db
    ensures db.Valid()
    ensures saved == Brand(Some(old(db.nextId)), request.name, request.description)
    ensures old(db.nextId) !in old(db.brands)
    ensures db.State() == old(db.State()).(brands := old(db.brands)[old(db.nextId) := saved], nextId := old(db.nextId) + 1)
  {
    var brand := Brand(None, request.name, request.description);
    var id := db.NewId();
    saved := brand.(id := Some(id));
    db.brands := db.brands[id := saved];
  }

  /** `update`: replace name and description and keep the id; an absent id
      fails and nothing is saved. */
  method Update(db: Catalogue, id: int, request: BrandRequest) returns (r: Result<Brand>)
    requires db.Valid()
    modifies db
    ensures db.Valid()
    ensures id in old(db.brands) ==>
      && r == Ok(Brand(Some(id), request.name, request.description))
      && db.State() == old(db.State()).(brands := old(db.brands)[id := r.value])
    ensures id !in old(db.brands) ==>
      r == Err(ResourceNotFound(BrandKind, id)) && db.State() == old(db.State())
  {
    if id in db.brands {
      var existing := db.brands[id];
      existing := existing.(name := request.name, description := request.description);
      db.brands := db.brands[id := existing];
      r := Ok(existing);
    } else {
      r := Err(ResourceNotFound(BrandKind, id));
    }
  }

  /** `delete`: remove exactly the given row. An absent id fails and removes
      nothing; so does a brand that a product still refers to, which the
      database's foreign key refuses. */
  method Delete(db: Catalogue, id: int) returns (outcome: Outcome)
    requires db.Valid()
    modifies db
    ensures db.Valid()
    ensures id !in old(db.brands) ==>
      outcome == Fail(ResourceNotFound(BrandKind, id)) && db.State() == old(db.State())
    ensures id in old(db.brands) && old(db.BrandInUse(id)) ==>
      outcome == Fail(ForeignKeyViolation(BrandKind, id)) && db.State() == old(db.State())
    ensures id in old(db.brands) && !old(db.BrandInUse(id)) ==>
      outcome == Done && db.State() == old(db.State()).(brands := old(db.brands) - {id})
  {
    if id !in db.brands {
      outcome := Fail(ResourceNotFound(BrandKind, id));
    } else if db.BrandInUse(id) {
      outcome := Fail(ForeignKeyViolation(BrandKind, id));
    } else {
      db.brands := db.brands - {id};
      outcome := Done;
    }
  }
}
