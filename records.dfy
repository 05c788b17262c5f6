/** The records the application stores, and the errors a store request can end in. */
module Records {

  datatype Option<+T> = None | Some(value: T)

  /** Why a request to the record store was rejected. */
  datatype Error =
    | NotInitialized   // the service's handle is still null: "Database not initialized"
    | NotFoundError    // the opened database lacks the object store or index the request names
    | ConstraintError  // add on a key already present, or a key generator past 2^53
    | VersionError     // the database on disk has a version newer than the one requested
    | OpenFailed       // the engine refused to open the database (quota, permission, ...)

  datatype Result<+T> = Ok(value: T) | Err(error: Error)

  /** A category; `id` is absent before the record is first stored. */
  datatype Category = Category(id: Option<int>, name: string, picture: string)

  /** An item of a category; `picture` and `sound` are opaque encoded payloads. */
  datatype Item = Item(id: Option<int>, categoryId: int, name: string, picture: string, sound: string)

  /** A value as the object store holds it: either kind of record. */
  datatype Record = CategoryRecord(category: Category) | ItemRecord(item: Item)

  /** The record's in-line key, read at key path `id`. */
  function Id(r: Record): Option<int>
  {
    match r
    case CategoryRecord(c) => c.id
    case ItemRecord(i) => i.id
  }

  /** The record with key `k` injected at key path `id`; nothing else changes. */
  function WithId(r: Record, k: int): (r': Record)
    ensures Id(r') == Some(k)
    ensures r'.CategoryRecord? == r.CategoryRecord?
    ensures Id(r) == Some(k) ==> r' == r
  {
    match r
    case CategoryRecord(c) => CategoryRecord(c.(id := Some(k)))
    case ItemRecord(i) => ItemRecord(i.(id := Some(k)))
  }

  /** JavaScript truthiness of an optional numeric id: absent and 0 are falsy. */
  predicate TruthyId(id: Option<int>)
  {
    id.Some? && id.value != 0
  }
}
