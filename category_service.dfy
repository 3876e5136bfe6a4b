/** `CategoryServiceImpl`: category CRUD over the category table. A missing
    id throws `EntityNotFoundException`. */
module CategoryService {
  import opened Common
  import opened Entities
  import opened ObjectMapper
  import opened Catalogues

  /** `getAll`: one response per category, in id order: the
      i-th response carries the i-th smallest id. */
  method GetAll(db: Catalogue) returns (r: seq<CategoryResponse>)
    requires db.Valid()
    ensures |r| == |db.categories|
    ensures forall i :: 0 <= i < |r| ==> r[i] == CategoryToDto(db.categories[SortedIds(db.categories.Keys)[i]])
    ensures forall c :: c in db.categories.Values ==> CategoryToDto(c) in r
    ensures forall i :: 0 <= i < |r| ==> r[i].id == Some(SortedIds(db.categories.Keys)[i])
  {
    var rows := FindAll(db.categories);
    r := CategoryDtos(rows);
    FindAllInIdOrder(db.categories, (c: Category) => c.id);
  }

  /** `getById`: the category's response, or not-found for an absent id. */
  method GetById(db: Catalogue, id: int) returns (r: Result<CategoryResponse>)
    requires db.Valid()
    ensures r.Ok? <==> id in db.categories
    ensures r.Ok? ==> r.value == CategoryToDto(db.categories[id]) && r.value.id == Some(id)
    ensures r.Err? ==> r.error == EntityNotFound(CategoryKind, id)
  {
    if id in db.categories {
      r := Ok(CategoryToDto(db.categories[id]));
    } else {
      r := Err(EntityNotFound(CategoryKind, id));
    }
  }

  /** `create`: a new category with the request's name and description, under
      the id the table hands out. */
  method Create(db: Catalogue, request: CategoryRequest) returns (saved: Category)
    requires db.Valid()
    modifies db
    ensures db.Valid()
    ensures saved == Category(Some(old(db.nextId)), request.name, request.description)
    ensures old(db.nextId) !in old(db.categories)
    ensures db.State() == old(db.State()).(categories := old(db.categories)[old(db.nextId) := saved], nextId := old(db.nextId) + 1)
  {
    var category := Category(None, request.name, request.description);
    var id := db.NewId();
    saved := category.(id := Some(id));
    db.categories := db.categories[id := saved];
  }

  /** `update`: replace name and description and keep the id; an absent id
      fails and nothing is saved. */
  method Update(db: Catalogue, id: int, request: CategoryRequest) returns (r: Result<Category>)
    requires db.Valid()
    modifies db
    ensures db.Valid()
    ensures id in old(db.categories) ==>
      && r == Ok(Category(Some(id), request.name, request.description))
      && db.State() == old(db.State()).(categories := old(db.categories)[id := r.value])
    ensures id !in old(db.categories) ==>
      r == Err(EntityNotFound(CategoryKind, id)) && db.State() == old(db.State())
  {
    if id in db.categories {
      var existing := db.categories[id];
      existing := existing.(name := request.name, description := request.description);
      db.categories := db.categories[id := existing];
      r := Ok(existing);
    } else {
      r := Err(EntityNotFound(CategoryKind, id));
    }
  }

  /** `delete`: remove exactly the given row. An absent id fails and removes
      nothing; so does a category that a product still refers to, which the
      database's foreign key refuses. */
  method Delete(db: Catalogue, id: int) returns (outcome: Outcome)
    requires db.Valid()
    modifies db
    ensures db.Valid()
    ensures id !in old(db.categories) ==>
      outcome == Fail(EntityNotFound(CategoryKind, id)) && db.State() == old(db.State())
    ensures id in old(db.categories) && old(db.CategoryInUse(id)) ==>
      outcome == Fail(ForeignKeyViolation(CategoryKind, id)) && db.State() == old(db.State())
    ensures id in old(db.categories) && !old(db.CategoryInUse(id)) ==>
      outcome == Done && db.State() == old(db.State()).(categories := old(db.categories) - {id})
  {
    if id !in db.categories {
      outcome := Fail(EntityNotFound(CategoryKind, id));
    } else if db.CategoryInUse(id) {
      outcome := Fail(ForeignKeyViolation(CategoryKind, id));
    } else {
      db.categories := db.categories - {id};
      outcome := Done;
    }
  }
}
