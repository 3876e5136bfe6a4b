/** Values shared by every layer of the catalogue: Java's nullable references,
    the service layer's failures, and the result of an operation that can fail. */
module Common {

  /** A Java reference that may be null. */
  datatype Option<+T> = None | Some(value: T)

  /** A `java.lang.String` field, which may be null. */
  type Text = Option<string>

  /** The entity a failure message names ("Brand not found with id: 7"). */
  datatype EntityKind = BrandKind | CategoryKind | ProductKind | StoreKind | ProductStoreKind

  /** The exceptions the services throw. The three not-found classes are
      distinct exception types in the source; each carries the entity kind
      its message names and the id it was given. */
  datatype Failure =
    | ResourceNotFound(kind: EntityKind, id: int)   // com.prico.exception.ResourceNotFoundException
    | EntityNotFound(kind: EntityKind, id: int)     // com.prico.exception.EntityNotFoundException
    | ProductNotFound(id: int)                      // com.prico.exception.ProductNotFoundException
    | NullPointer                                   // a null field dereferenced
    | ForeignKeyViolation(kind: EntityKind, id: int) // the database refuses to delete a referenced row

  /** The outcome of a service call: its return value, or the exception it throws. */
  datatype Result<+T> = Ok(value: T) | Err(error: Failure)

  /** The outcome of a `void` service call. */
  datatype Outcome = Done | Fail(error: Failure)
}
