/** `StoreServiceImpl`: store CRUD over the store table. A missing id
    throws `EntityNotFoundException`. */
module StoreService {
  import opened Common
  import opened Entities
  import opened ObjectMapper
  import opened Catalogues

  /** `getAll`: one response per store, in id order: the
      i-th response carries the i-th smallest id. */
  method GetAll(db: Catalogue) returns (r: seq<StoreResponse>)
    requires db.Valid()
    ensures |r| == |db.stores|
    ensures forall i :: 0 <= i < |r| ==> r[i] == StoreToDto(db.stores[SortedIds(db.stores.Keys)[i]])
    ensures forall s :: s in db.stores.Values ==> StoreToDto(s) in r
    ensures forall i :: 0 <= i < |r| ==> r[i].id == Some(SortedIds(db.stores.Keys)[i])
  {
    var rows := FindAll(db.stores);
    r := StoreDtos(rows);
    FindAllInIdOrder(db.stores, (s: Store) => s.id);
  }

  /** `getById`: the store's response, or not-found for an absent id. */
  method GetById(db: Catalogue, id: int) returns (r: Result<StoreResponse>)
    requires db.Valid()
    ensures r.Ok? <==> id in db.stores
    ensures r.Ok? ==> r.value == StoreToDto(db.stores[id]) && r.value.id == Some(id)
    ensures r.Err? ==> r.error == EntityNotFound(StoreKind, id)
  {
    if id in db.stores {
      r := Ok(StoreToDto(db.stores[id]));
    } else {
      r := Err(EntityNotFound(StoreKind, id));
    }
  }

  /** `create`: a new store with the request's name, location and
      website, under
      the id the table hands out. */
  method Create(db: Catalogue, request: StoreRequest) returns (saved: Store)
    requires db.Valid()
    modifies db
    ensures db.Valid()
    ensures saved == Store(Some(old(db.nextId)), request.name, request.location, request.website)
    ensures old(db.nextId) !in old(db.stores)
    ensures db.State() == old(db.State()).(stores := old(db.stores)[old(db.nextId) := saved], nextId := old(db.nextId) + 1)
  {
    var store := Store(None, request.name, request.location, request.website);
    var id := db.NewId();
    saved := store.(id := Some(id));
    db.stores := db.stores[id := saved];
  }

  /** `update`: replace name, location and website and keep the id; an absent id
      fails and nothing is saved. */
  method Update(db: Catalogue, id: int, request: StoreRequest) returns (r: Result<Store>)
    requires db.Valid()
    modifies db
    ensures db.Valid()
    ensures id in old(db.stores) ==>
      && r == Ok(Store(Some(id), request.name, request.location, request.website))
      && db.State() == old(db.State()).(stores := old(db.stores)[id := r.value])
    ensures id !in old(db.stores) ==>
      r == Err(EntityNotFound(StoreKind, id)) && db.State() == old(db.State())
  {
    if id in db.stores {
      var existing := db.stores[id];
      existing := existing.(name := request.name, location := request.location, website := request.website);
      db.stores := db.stores[id := existing];
      r := Ok(existing);
    } else {
      r := Err(EntityNotFound(StoreKind, id));
    }
  }

  /** `delete`: remove exactly the given row. An absent id fails and removes
      nothing; so does a store that a variation still refers to, which the
      database's foreign key refuses. */
  method Delete(db: Catalogue, id: int) returns (outcome: Outcome)
    requires db.Valid()
    modifies db
    ensures db.Valid()
    ensures id !in old(db.stores) ==>
      outcome == Fail(EntityNotFound(StoreKind, id)) && db.State() == old(db.State())
    ensures id in old(db.stores) && old(db.StoreInUse(id)) ==>
      outcome == Fail(ForeignKeyViolation(StoreKind, id)) && db.State() == old(db.State())
    ensures id in old(db.stores) && !old(db.StoreInUse(id)) ==>
      outcome == Done && db.State() == old(db.State()).(stores := old(db.stores) - {id})
  {
    if id !in db.stores {
      outcome := Fail(EntityNotFound(StoreKind, id));
    } else if db.StoreInUse(id) {
      outcome := Fail(ForeignKeyViolation(StoreKind, id));
    } else {
      db.stores := db.stores - {id};
      outcome := Done;
    }
  }
}
