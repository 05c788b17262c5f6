/**
 * The record store the application talks to: one local database, version 1, with the object
 * stores `categories` and `items` (the latter indexed by `categoryId`), opened once at start-up
 * and seeded with demo data when it has no category.
 */
module DbService {
  import opened Records
  import opened ObjectStore

  const DbName: string := "KidsLearningDB"
  const DbVersion: nat := 1

  /** The two object stores, by the names the service passes around. */
  datatype StoreName = Categories | Items

  /**
   * A database as the engine keeps it: its version, each object store if it has been created,
   * and whether `items` carries the `categoryId` index.
   */
  datatype Database = Database(version: nat, categories: Option<Table>, items: Option<Table>, categoryIndex: bool)

  /** A database that has never been created: version 0, no stores. */
  const Absent: Database := Database(0, None, None, false)

  function StoreOf(d: Database, name: StoreName): Option<Table>
  {
    if name == Categories then d.categories else d.items
  }

  function WithStore(d: Database, name: StoreName, t: Table): (d': Database)
    ensures StoreOf(d', name) == Some(t)
    ensures d'.version == d.version && d'.categoryIndex == d.categoryIndex
  {
    if name == Categories then d.(categories := Some(t)) else d.(items := Some(t))
  }

  ghost predicate DatabaseValid(d: Database)
  {
    && (d.categories.Some? ==> ObjectStore.Valid(d.categories.value))
    && (d.items.Some? ==> ObjectStore.Valid(d.items.value))
  }

  // ---------------------------------------------------------------------------------------
  // Opening: the upgrade handler and the version handshake
  // ---------------------------------------------------------------------------------------

  /**
   * The upgrade handler: create `categories` if missing, and `items` with its `categoryId`
   * index if missing; a store that exists is left as it is.
   */
  function Upgrade(d: Database): Database
  {
    Database(
      d.version,
      if d.categories.None? then Some(Empty()) else d.categories,
      if d.items.None? then Some(Empty()) else d.items,
      if d.items.None? then true else d.categoryIndex)
  }

  /**
   * Opening the stored database at version 1: an engine failure or a newer stored version is
   * an error; an older one (0 when the database does not exist) runs the upgrade handler.
   */
  function Open(persisted: Database, engineOk: bool): Result<Database>
  {
    if !engineOk then Err(OpenFailed)
    else if persisted.version > DbVersion then Err(VersionError)
    else if persisted.version < DbVersion then Ok(Upgrade(persisted).(version := DbVersion))
    else Ok(persisted)
  }

  /**
   * The upgrade handler always leaves both stores in place, keeps any existing store's records
   * and generator, creates missing ones empty (a new `items` with its index), and running it
   * again changes nothing.
   */
  lemma UpgradeCreatesSchema(d: Database)
    requires DatabaseValid(d)
    ensures DatabaseValid(Upgrade(d))
    ensures Upgrade(d).categories.Some? && Upgrade(d).items.Some?
    ensures d.categories.Some? ==> Upgrade(d).categories == d.categories
    ensures d.items.Some? ==> Upgrade(d).items == d.items && Upgrade(d).categoryIndex == d.categoryIndex
    ensures d.categories.None? ==> Upgrade(d).categories == Some(Empty())
    ensures d.items.None? ==> Upgrade(d).items == Some(Empty()) && Upgrade(d).categoryIndex
    ensures Upgrade(Upgrade(d)) == Upgrade(d)
  {
  }

  /**
   * Opening succeeds exactly when the engine cooperates and the stored version is at most 1;
   * the opened database is at version 1, and a first open yields the two empty stores with the
   * index.
   */
  lemma OpenSpec(persisted: Database, engineOk: bool)
    requires DatabaseValid(persisted)
    ensures Open(persisted, engineOk).Ok? <==> engineOk && persisted.version <= DbVersion
    ensures Open(persisted, engineOk).Ok? ==>
      Open(persisted, engineOk).value.version == DbVersion && DatabaseValid(Open(persisted, engineOk).value)
    ensures engineOk && persisted == Absent ==>
      Open(persisted, engineOk) == Ok(Database(DbVersion, Some(Empty()), Some(Empty()), true))
  {
    UpgradeCreatesSchema(persisted);
  }

  // ---------------------------------------------------------------------------------------
  // Requests against the handle
  // ---------------------------------------------------------------------------------------

  /**
   * getStore: the named store of the opened database, "Database not initialized" while the
   * handle is null, NotFoundError when the database has no such store.
   */
  function Located(h: Option<Database>, name: StoreName): (res: Result<Table>)
    ensures h.None? ==> res == Err(NotInitialized)
    ensures res.Ok? <==> h.Some? && StoreOf(h.value, name).Some?
  {
    match h
    case None => Err(NotInitialized)
    case Some(d) =>
      match StoreOf(d, name)
      case None => Err(NotFoundError)
      case Some(t) => Ok(t)
  }

  /** A request that changes a store, as issued to the engine. */
  datatype Write =
    | AddRequest(store: StoreName, record: Record)
    | PutRequest(store: StoreName, record: Record)
    | DeleteRequest(store: StoreName, key: int)

  /** The handle after a request, the requests issued to the engine, and what the caller gets. */
  datatype Reply<T> = Reply(db: Option<Database>, issued: seq<Write>, result: Result<T>)

  /** add: the key the record was stored under. */
  function AddIn(h: Option<Database>, name: StoreName, r: Record): Reply<int>
  {
    match Located(h, name)
    case Err(e) => Reply(h, [], Err(e))
    case Ok(t) =>
      match ObjectStore.Add(t, r)
      case Err(e) => Reply(h, [AddRequest(name, r)], Err(e))
      case Ok(s) => Reply(Some(WithStore(h.value, name, s.table)), [AddRequest(name, r)], Ok(s.key))
  }

  /** update (put): the record exactly as the caller passed it. */
  function PutIn(h: Option<Database>, name: StoreName, r: Record): Reply<Record>
  {
    match Located(h, name)
    case Err(e) => Reply(h, [], Err(e))
    case Ok(t) =>
      match ObjectStore.Put(t, r)
      case Err(e) => Reply(h, [PutRequest(name, r)], Err(e))
      case Ok(s) => Reply(Some(WithStore(h.value, name, s.table)), [PutRequest(name, r)], Ok(r))
  }

  function DeleteIn(h: Option<Database>, name: StoreName, k: int): Reply<()>
  {
    match Located(h, name)
    case Err(e) => Reply(h, [], Err(e))
    case Ok(t) => Reply(Some(WithStore(h.value, name, Delete(t, k))), [DeleteRequest(name, k)], Ok(()))
  }

  function CountIn(h: Option<Database>, name: StoreName): Result<nat>
  {
    match Located(h, name)
    case Err(e) => Err(e)
    case Ok(t) => Ok(Count(t))
  }

  function GetAllIn(h: Option<Database>, name: StoreName): Result<seq<Record>>
  {
    match Located(h, name)
    case Err(e) => Err(e)
    case Ok(t) => Ok(GetAll(t))
  }

  /** The category records among `rs`, unwrapped, order kept. */
  function CategoriesOf(rs: seq<Record>): (cs: seq<Category>)
    ensures forall c :: c in cs <==> CategoryRecord(c) in rs
    ensures |cs| <= |rs|
  {
    if rs == [] then []
    else (if rs[0].CategoryRecord? then [rs[0].category] else []) + CategoriesOf(rs[1..])
  }

  /** The item records among `rs`, unwrapped, order kept. */
  function ItemsOf(rs: seq<Record>): (items: seq<Item>)
    ensures forall i :: i in items <==> ItemRecord(i) in rs
    ensures |items| <= |rs|
  {
    if rs == [] then []
    else (if rs[0].ItemRecord? then [rs[0].item] else []) + ItemsOf(rs[1..])
  }

  /** Unwrapping distributes over concatenation, so the order of the records is kept. */
  lemma {:induction false} CategoriesOfAppend(a: seq<Record>, b: seq<Record>)
    ensures CategoriesOf(a + b) == CategoriesOf(a) + CategoriesOf(b)
  {
    if a == [] {
      assert a + b == b;
    } else {
      assert (a + b)[1..] == a[1..] + b;
      CategoriesOfAppend(a[1..], b);
    }
  }

  /** A store holding only categories unwraps record for record. */
  lemma {:induction false} CategoriesOfAllCategories(rs: seq<Record>)
    requires forall j | 0 <= j < |rs| :: rs[j].CategoryRecord?
    ensures |CategoriesOf(rs)| == |rs|
    ensures forall j | 0 <= j < |rs| :: CategoriesOf(rs)[j] == rs[j].category
  {
    if rs != [] {
      CategoriesOfAllCategories(rs[1..]);
    }
  }

  /** Unwrapping distributes over concatenation, so the order of the records is kept. */
  lemma {:induction false} ItemsOfAppend(a: seq<Record>, b: seq<Record>)
    ensures ItemsOf(a + b) == ItemsOf(a) + ItemsOf(b)
  {
    if a == [] {
      assert a + b == b;
    } else {
      assert (a + b)[1..] == a[1..] + b;
      ItemsOfAppend(a[1..], b);
    }
  }

  /** A store holding only items unwraps record for record. */
  lemma {:induction false} ItemsOfAllItems(rs: seq<Record>)
    requires forall j | 0 <= j < |rs| :: rs[j].ItemRecord?
    ensures |ItemsOf(rs)| == |rs|
    ensures forall j | 0 <= j < |rs| :: ItemsOf(rs)[j] == rs[j].item
  {
    if rs != [] {
      ItemsOfAllItems(rs[1..]);
    }
  }

  /** getItems: the `categoryId` index queried at `k` (NotFoundError if the index is missing). */
  function GetItemsIn(h: Option<Database>, k: int): Result<seq<Item>>
  {
    match Located(h, Items)
    case Err(e) => Err(e)
    case Ok(t) => if !h.value.categoryIndex then Err(NotFoundError) else Ok(ItemsOf(IndexGetAll(t, k)))
  }

  /** Every request against a null handle is refused with NotInitialized and changes nothing. */
  lemma NullHandleRejectsEverything(name: StoreName, r: Record, k: int)
    ensures AddIn(None, name, r) == Reply(None, [], Err(NotInitialized))
    ensures PutIn(None, name, r) == Reply(None, [], Err(NotInitialized))
    ensures DeleteIn(None, name, k) == Reply(None, [], Err(NotInitialized))
    ensures CountIn(None, name) == Err(NotInitialized)
    ensures GetAllIn(None, name) == Err(NotInitialized)
    ensures GetItemsIn(None, k) == Err(NotInitialized)
  {
  }

  /** The requests keep every store of a valid database valid and leave the schema alone. */
  lemma RequestsKeepValid(h: Option<Database>, name: StoreName, r: Record, k: int)
    requires h.Some? ==> DatabaseValid(h.value)
    ensures AddIn(h, name, r).db.Some? ==> DatabaseValid(AddIn(h, name, r).db.value)
    ensures PutIn(h, name, r).db.Some? ==> DatabaseValid(PutIn(h, name, r).db.value)
    ensures DeleteIn(h, name, k).db.Some? ==> DatabaseValid(DeleteIn(h, name, k).db.value)
    ensures AddIn(h, name, r).db.Some? == h.Some? && PutIn(h, name, r).db.Some? == h.Some?
    ensures DeleteIn(h, name, k).db.Some? == h.Some?
  {
    if Located(h, name).Ok? {
      var t := Located(h, name).value;
      AddAssignsFreshKey(t, r);
      PutStoresRecord(t, r);
      DeleteRemovesOnlyKey(t, k);
    }
  }

  /**
   * getItems over a valid database returns exactly the items whose categoryId is `k`, and the
   * empty sequence when there is none.
   */
  lemma GetItemsIsCategoryFilter(d: Database, k: int)
    requires DatabaseValid(d) && d.items.Some? && d.categoryIndex
    ensures GetItemsIn(Some(d), k).Ok?
    ensures forall i :: i in GetItemsIn(Some(d), k).value <==>
      ItemRecord(i) in d.items.value.records.Values && i.categoryId == k
    ensures GetItemsIn(Some(d), k).value == [] <==>
      forall j | j in d.items.value.records :: !InCategory(d.items.value.records[j], k)
  {
    var t := d.items.value;
    IndexGetAllIsCategoryFilter(t, k);
    var out := ItemsOf(IndexGetAll(t, k));
    if IndexGetAll(t, k) != [] {
      var r := IndexGetAll(t, k)[0];
      assert r in IndexGetAll(t, k);
      assert r.ItemRecord?;
      assert r.item in out;
    }
  }

  // ---------------------------------------------------------------------------------------
  // Seeding
  // ---------------------------------------------------------------------------------------

  /** The one placeholder picture every seeded record shares. */
  const Placeholder: string := "data:image/gif;base64,R0lGODlhAQABAIAAAAAAAP///yH5BAEAAAAALAAAAAABAAEAAAIBRAA7"

  function SeedCategory(name: string): Category
  {
    Category(None, name, Placeholder)
  }

  function SeedItem(name: string, categoryId: int): Item
  {
    Item(None, categoryId, name, Placeholder, "")
  }

  /** The handle after seeding (or after its first failed request), and every request issued. */
  datatype Seeding = Seeding(db: Option<Database>, issued: seq<Write>, outcome: Result<()>)

  /** Adds one item per name under category `k`, stopping at the first rejected add. */
  function AddItems(h: Option<Database>, k: int, names: seq<string>): Seeding
    decreases |names|
  {
    if names == [] then Seeding(h, [], Ok(()))
    else
      var a := AddIn(h, Items, ItemRecord(SeedItem(names[0], k)));
      if a.result.Err? then Seeding(a.db, a.issued, Err(a.result.error))
      else
        var rest := AddItems(a.db, k, names[1..]);
        Seeding(rest.db, a.issued + rest.issued, rest.outcome)
  }

  /** Adds a category, then its items under the key the category was given. */
  function SeedGroup(h: Option<Database>, category: string, names: seq<string>): Seeding
  {
    var c := AddIn(h, Categories, CategoryRecord(SeedCategory(category)));
    if c.result.Err? then Seeding(c.db, c.issued, Err(c.result.error))
    else
      var rest := AddItems(c.db, c.result.value, names);
      Seeding(rest.db, c.issued + rest.issued, rest.outcome)
  }

  /** seedData: "Animals" with Dog and Cat, then "Vehicles" with Car and Airplane. */
  function Seed(h: Option<Database>): Seeding
  {
    var g := SeedGroup(h, "Animals", ["Dog", "Cat"]);
    if g.outcome.Err? then g
    else
      var v := SeedGroup(g.db, "Vehicles", ["Car", "Airplane"]);
      Seeding(v.db, g.issued + v.issued, v.outcome)
  }

  /** One seeding group's effect: the category under the next key, its two items under theirs. */
  function GroupData(d: Database, category: string, x: string, y: string): (e: Database)
    requires d.categories.Some? && d.items.Some?
    ensures e.categories.Some? && e.items.Some?
    ensures e.categories.value.current == d.categories.value.current + 1
    ensures e.items.value.current == d.items.value.current + 2
  {
    var c0 := d.categories.value;
    var i0 := d.items.value;
    var a := c0.current;
    var n := i0.current;
    d.(categories := Some(Table(c0.records[a := CategoryRecord(SeedCategory(category).(id := Some(a)))], a + 1)),
       items := Some(Table(
         i0.records[n := ItemRecord(SeedItem(x, a).(id := Some(n)))]
                   [n + 1 := ItemRecord(SeedItem(y, a).(id := Some(n + 1)))],
         n + 2)))
  }

  /** With room in both generators, one seeding group succeeds and leaves `GroupData`. */
  lemma SeedGroupAddsGroupData(d: Database, category: string, x: string, y: string)
    requires DatabaseValid(d) && d.categories.Some? && d.items.Some?
    requires d.categories.value.current <= MaxGeneratedKey
    requires d.items.value.current + 1 <= MaxGeneratedKey
    ensures SeedGroup(Some(d), category, [x, y]).outcome.Ok?
    ensures SeedGroup(Some(d), category, [x, y]).db == Some(GroupData(d, category, x, y))
    ensures DatabaseValid(GroupData(d, category, x, y))
  {
    var a := d.categories.value.current;
    var n := d.items.value.current;
    var c := AddIn(Some(d), Categories, CategoryRecord(SeedCategory(category)));
    AddAssignsFreshKey(d.categories.value, CategoryRecord(SeedCategory(category)));
    assert c.result == Ok(a);
    var e := c.db.value;
    assert DatabaseValid(e);
    var p := AddIn(c.db, Items, ItemRecord(SeedItem(x, a)));
    AddAssignsFreshKey(e.items.value, ItemRecord(SeedItem(x, a)));
    assert p.result == Ok(n);
    var f := p.db.value;
    assert DatabaseValid(f);
    var q := AddIn(p.db, Items, ItemRecord(SeedItem(y, a)));
    AddAssignsFreshKey(f.items.value, ItemRecord(SeedItem(y, a)));
    assert q.result == Ok(n + 1);
    assert [x, y][1..] == [y];
    assert [y][1..] == [];
    SeedGroupUnfold(Some(d), category, x, y);
    assert q.db == Some(GroupData(d, category, x, y));
  }

  /**
   * One group adds exactly one category under the generator's next key and two items under
   * the items generator's next keys, both of that category and with an empty sound.
   */
  lemma GroupDataShape(d: Database, category: string, x: string, y: string)
    requires DatabaseValid(d) && d.categories.Some? && d.items.Some?
    requires d.categories.value.current <= MaxGeneratedKey
    requires d.items.value.current + 1 <= MaxGeneratedKey
    ensures var e := GroupData(d, category, x, y);
      var k := d.categories.value.current;
      && e.categories.value.records.Keys == d.categories.value.records.Keys + {k}
      && |e.categories.value.records| == |d.categories.value.records| + 1
      && d.items.value.records.Keys <= e.items.value.records.Keys
      && |e.items.value.records| == |d.items.value.records| + 2
      && forall j | j in e.items.value.records && j !in d.items.value.records ::
           && e.items.value.records[j].ItemRecord?
           && e.items.value.records[j].item.sound == ""
           && e.items.value.records[j].item.categoryId == k
  {
    var i0 := d.items.value;
    var n := i0.current;
    var m1 := i0.records[n := ItemRecord(SeedItem(x, d.categories.value.current).(id := Some(n)))];
    assert n !in i0.records && n + 1 !in m1;
    assert |m1| == |i0.records| + 1;
    assert d.categories.value.current !in d.categories.value.records;
  }

  /**
   * The database seeding should leave behind: the "Animals" group (Dog, Cat), then the
   * "Vehicles" group (Car, Airplane), each under its generators' next keys.
   */
  function DemoData(d: Database): Database
    requires d.categories.Some? && d.items.Some?
  {
    GroupData(GroupData(d, "Animals", "Dog", "Cat"), "Vehicles", "Car", "Airplane")
  }

  /**
   * When neither generator is near exhaustion, seeding succeeds and leaves exactly `DemoData`.
   */
  lemma SeedAddsDemoData(d: Database)
    requires DatabaseValid(d) && d.categories.Some? && d.items.Some?
    requires d.categories.value.current < MaxGeneratedKey
    requires d.items.value.current + 3 <= MaxGeneratedKey
    ensures Seed(Some(d)).outcome.Ok? && Seed(Some(d)).db == Some(DemoData(d))
  {
    SeedGroupAddsGroupData(d, "Animals", "Dog", "Cat");
    SeedGroupAddsGroupData(GroupData(d, "Animals", "Dog", "Cat"), "Vehicles", "Car", "Airplane");
  }

  /** The demo data keeps both stores valid. */
  lemma DemoDataValid(d: Database)
    requires DatabaseValid(d) && d.categories.Some? && d.items.Some?
    requires d.categories.value.current < MaxGeneratedKey
    requires d.items.value.current + 3 <= MaxGeneratedKey
    ensures DatabaseValid(DemoData(d))
  {
    SeedGroupAddsGroupData(d, "Animals", "Dog", "Cat");
    SeedGroupAddsGroupData(GroupData(d, "Animals", "Dog", "Cat"), "Vehicles", "Car", "Airplane");
  }

  /**
   * Over a database whose categories store is empty, the demo data holds exactly 2 categories
   * and 4 more items.
   */
  lemma DemoDataCounts(d: Database)
    requires DatabaseValid(d) && d.categories.Some? && d.items.Some?
    requires d.categories.value.records == map[]
    requires d.categories.value.current < MaxGeneratedKey
    requires d.items.value.current + 3 <= MaxGeneratedKey
    ensures Count(DemoData(d).categories.value) == 2
    ensures Count(DemoData(d).items.value) == Count(d.items.value) + 4
  {
    var g := GroupData(d, "Animals", "Dog", "Cat");
    SeedGroupAddsGroupData(d, "Animals", "Dog", "Cat");
    GroupDataShape(d, "Animals", "Dog", "Cat");
    GroupDataShape(g, "Vehicles", "Car", "Airplane");
  }

  /**
   * What seeding stores, record by record: "Animals" under the categories generator's next key
   * `a` and "Vehicles" under `a + 1`, both keys new; Dog and Cat of category `a` and Car and
   * Airplane of category `a + 1` under the items generator's next four keys, all with an empty
   * sound.
   */
  lemma DemoDataRecords(d: Database)
    requires DatabaseValid(d) && d.categories.Some? && d.items.Some?
    requires d.categories.value.current < MaxGeneratedKey
    ensures var e := DemoData(d);
      var a, n := d.categories.value.current, d.items.value.current;
      && a !in d.categories.value.records && a + 1 !in d.categories.value.records
      && e.categories.value.records.Keys == d.categories.value.records.Keys + {a, a + 1}
      && e.categories.value.records[a] == CategoryRecord(Category(Some(a), "Animals", Placeholder))
      && e.categories.value.records[a + 1] == CategoryRecord(Category(Some(a + 1), "Vehicles", Placeholder))
      && e.items.value.records.Keys == d.items.value.records.Keys + {n, n + 1, n + 2, n + 3}
      && e.items.value.records[n] == ItemRecord(Item(Some(n), a, "Dog", Placeholder, ""))
      && e.items.value.records[n + 1] == ItemRecord(Item(Some(n + 1), a, "Cat", Placeholder, ""))
      && e.items.value.records[n + 2] == ItemRecord(Item(Some(n + 2), a + 1, "Car", Placeholder, ""))
      && e.items.value.records[n + 3] == ItemRecord(Item(Some(n + 3), a + 1, "Airplane", Placeholder, ""))
  {
    var a, n := d.categories.value.current, d.items.value.current;
    assert a !in d.categories.value.records && a + 1 !in d.categories.value.records;
    var g := GroupData(d, "Animals", "Dog", "Cat");
    var e := DemoData(d);
    assert g.items.value.records[n] == ItemRecord(Item(Some(n), a, "Dog", Placeholder, ""));
    assert g.items.value.records[n + 1] == ItemRecord(Item(Some(n + 1), a, "Cat", Placeholder, ""));
    assert e.items.value.records.Keys == g.items.value.records.Keys + {n + 2, n + 3};
    assert e.categories.value.records.Keys == g.categories.value.records.Keys + {a + 1};
  }

  /**
   * Every item seeding adds has an empty sound and carries the key of a category seeding added,
   * never that of a category that was there before.
   */
  lemma DemoDataLinksItems(d: Database)
    requires DatabaseValid(d) && d.categories.Some? && d.items.Some?
    requires d.categories.value.current < MaxGeneratedKey
    ensures forall j | j in DemoData(d).items.value.records && j !in d.items.value.records ::
      var r := DemoData(d).items.value.records[j];
      && r.ItemRecord? && r.item.sound == ""
      && r.item.categoryId in DemoData(d).categories.value.records
      && r.item.categoryId !in d.categories.value.records
  {
    DemoDataRecords(d);
    var a, n := d.categories.value.current, d.items.value.current;
    var e := DemoData(d);
    forall j | j in e.items.value.records && j !in d.items.value.records
      ensures var r := e.items.value.records[j];
        && r.ItemRecord? && r.item.sound == ""
        && r.item.categoryId in e.categories.value.records
        && r.item.categoryId !in d.categories.value.records
    {
      assert j == n || j == n + 1 || j == n + 2 || j == n + 3;
    }
  }

  /**
   * Seeding a database with no category leaves exactly 2 categories and 4 more items, each new
   * item under one of the new categories and with an empty sound.
   */
  lemma SeedOnEmptyCategories(d: Database)
    requires DatabaseValid(d) && d.categories.Some? && d.items.Some?
    requires d.categories.value.records == map[]
    requires d.categories.value.current < MaxGeneratedKey
    requires d.items.value.current + 3 <= MaxGeneratedKey
    ensures Seed(Some(d)).outcome.Ok?
    ensures var e := Seed(Some(d)).db;
      && e.Some? && DatabaseValid(e.value) && e.value.categories.Some? && e.value.items.Some?
      && Count(e.value.categories.value) == 2
      && Count(e.value.items.value) == Count(d.items.value) + 4
    ensures var e := Seed(Some(d)).db.value;
      forall j | j in e.items.value.records && j !in d.items.value.records ::
        && e.items.value.records[j].ItemRecord? && e.items.value.records[j].item.sound == ""
        && e.items.value.records[j].item.categoryId in e.categories.value.records
  {
    SeedAddsDemoData(d);
    DemoDataValid(d);
    DemoDataCounts(d);
    DemoDataLinksItems(d);
  }

  /**
   * Reopening a database that seeding filled does not seed again: it is at version 1, opens
   * unchanged, and its category count is no longer 0.
   */
  lemma ReopenDoesNotSeed(d: Database)
    requires DatabaseValid(d) && d.version == DbVersion && d.categories.Some? && d.items.Some?
    requires d.categories.value.records == map[]
    requires d.categories.value.current < MaxGeneratedKey
    requires d.items.value.current + 3 <= MaxGeneratedKey
    ensures var s := Seed(Some(d));
      s.db.Some? && Open(s.db.value, true) == Ok(s.db.value) &&
      CountIn(s.db, Categories).Ok? && CountIn(s.db, Categories).value != 0
  {
    SeedAddsDemoData(d);
    DemoDataValid(d);
    DemoDataCounts(d);
  }

  /** One seeding group written out: the category's add, then its two items' adds. */
  lemma SeedGroupUnfold(h: Option<Database>, category: string, x: string, y: string)
    ensures var c := AddIn(h, Categories, CategoryRecord(SeedCategory(category)));
      c.result.Err? ==> SeedGroup(h, category, [x, y]) == Seeding(c.db, c.issued, Err(c.result.error))
    ensures var c := AddIn(h, Categories, CategoryRecord(SeedCategory(category)));
      c.result.Ok? ==>
        var a := AddIn(c.db, Items, ItemRecord(SeedItem(x, c.result.value)));
        var b := AddIn(a.db, Items, ItemRecord(SeedItem(y, c.result.value)));
        SeedGroup(h, category, [x, y]) ==
          if a.result.Err? then Seeding(a.db, c.issued + a.issued, Err(a.result.error))
          else if b.result.Err? then Seeding(b.db, c.issued + a.issued + b.issued, Err(b.result.error))
          else Seeding(b.db, c.issued + a.issued + b.issued, Ok(()))
  {
    assert [x, y][1..] == [y];
    assert [y][1..] == [];
    var c := AddIn(h, Categories, CategoryRecord(SeedCategory(category)));
    if c.result.Ok? {
      var a := AddIn(c.db, Items, ItemRecord(SeedItem(x, c.result.value)));
      var b := AddIn(a.db, Items, ItemRecord(SeedItem(y, c.result.value)));
      var k := c.result.value;
      if a.result.Ok? {
        assert AddItems(b.db, k, []) == Seeding(b.db, [], Ok(()));
        if b.result.Ok? {
          assert b.issued + [] == b.issued;
          assert AddItems(a.db, k, [y]) == Seeding(b.db, b.issued, Ok(()));
        } else {
          assert AddItems(a.db, k, [y]) == Seeding(b.db, b.issued, Err(b.result.error));
        }
        assert AddItems(c.db, k, [x, y]) ==
          Seeding(b.db, a.issued + b.issued, AddItems(a.db, k, [y]).outcome);
        assert c.issued + (a.issued + b.issued) == c.issued + a.issued + b.issued;
      } else {
        assert AddItems(c.db, k, [x, y]) == Seeding(a.db, a.issued, Err(a.result.error));
      }
    }
  }

  // ---------------------------------------------------------------------------------------
  // The service object
  // ---------------------------------------------------------------------------------------

  lemma AppendAssociates<T>(a: seq<T>, b: seq<T>, c: seq<T>)
    ensures (a + b) + c == a + (b + c)
  {
  }

  class DbService {
    /** The database handle; null (None) until opening succeeds. */
    var db: Option<Database>
    /** The readiness signal the UI consults. */
    var dbReady: bool
    /** Every add, put and delete request issued to the engine, in order. */
    ghost var writes: seq<Write>

    ghost predicate Valid()
      reads this
    {
      db.Some? ==> DatabaseValid(db.value)
    }

    /** The service as constructed: no handle, not ready; `InitDb` then runs asynchronously. */
    constructor ()
      ensures Valid() && db == None && !dbReady && writes == []
    {
      db := None;
      dbReady := false;
      writes := [];
    }

    /**
     * initDb, given the database the engine holds and whether the engine lets it open: the
     * handle is set once opening succeeds and `dbReady` becomes true; the categories are
     * counted and, only when there are none, seeded. A failed count or seeding sets `dbReady`
     * back to false while the handle stays set.
     */
    method InitDb(persisted: Database, engineOk: bool)
      requires Valid() && DatabaseValid(persisted)
      modifies this
      ensures Valid()
      ensures Open(persisted, engineOk).Err? ==>
        db == old(db) && !dbReady && writes == old(writes)
      ensures Open(persisted, engineOk).Ok? ==>
        var d := Open(persisted, engineOk).value;
        match CountIn(Some(d), Categories)
        case Err(_) => db == Some(d) && !dbReady && writes == old(writes)
        case Ok(n) =>
          if n == 0 then
            var s := Seed(Some(d));
            db == s.db && writes == old(writes) + s.issued && dbReady == s.outcome.Ok?
          else
            db == Some(d) && dbReady && writes == old(writes)
    {
      var attempt := Open(persisted, engineOk);
      if attempt.Err? {
        dbReady := false;
        return;
      }
      OpenSpec(persisted, engineOk);
      db := Some(attempt.value);
      dbReady := true;
      var categoryCount := Count(Categories);
      if categoryCount.Err? {
        dbReady := false;
        return;
      }
      if categoryCount.value == 0 {
        var seeded := SeedData();
        if seeded.Err? {
          dbReady := false;
        }
      }
    }

    /** getStore's check, as everything below performs it. */
    function Store(name: StoreName): (res: Result<Table>)
      reads this
      ensures db.None? ==> res == Err(NotInitialized)
      ensures res.Ok? ==> db.Some? && StoreOf(db.value, name) == Some(res.value)
    {
      Located(db, name)
    }

    method Add(name: StoreName, r: Record) returns (res: Result<int>)
      requires Valid()
      modifies this
      ensures Valid() && dbReady == old(dbReady)
      ensures var rep := AddIn(old(db), name, r);
        db == rep.db && writes == old(writes) + rep.issued && res == rep.result
    {
      var rep := AddIn(db, name, r);
      RequestsKeepValid(db, name, r, 0);
      db := rep.db;
      writes := writes + rep.issued;
      res := rep.result;
    }

    method GetAll(name: StoreName) returns (res: Result<seq<Record>>)
      ensures Located(db, name).Err? ==> res == Err(Located(db, name).error)
      ensures Located(db, name).Ok? ==> res == Ok(ObjectStore.GetAll(Located(db, name).value))
    {
      res := GetAllIn(db, name);
    }

    method Update(name: StoreName, r: Record) returns (res: Result<Record>)
      requires Valid()
      modifies this
      ensures Valid() && dbReady == old(dbReady)
      ensures var rep := PutIn(old(db), name, r);
        db == rep.db && writes == old(writes) + rep.issued && res == rep.result
    {
      var rep := PutIn(db, name, r);
      RequestsKeepValid(db, name, r, 0);
      db := rep.db;
      writes := writes + rep.issued;
      res := rep.result;
    }

    method Delete(name: StoreName, id: int) returns (res: Result<()>)
      requires Valid()
      modifies this
      ensures Valid() && dbReady == old(dbReady)
      ensures var rep := DeleteIn(old(db), name, id);
        db == rep.db && writes == old(writes) + rep.issued && res == rep.result
    {
      var rep := DeleteIn(db, name, id);
      RequestsKeepValid(db, name, CategoryRecord(SeedCategory("")), id);
      db := rep.db;
      writes := writes + rep.issued;
      res := rep.result;
    }

    method Count(name: StoreName) returns (res: Result<nat>)
      ensures res.Ok? <==> Located(db, name).Ok?
      ensures res.Ok? ==> res.value == |Located(db, name).value.records|
      ensures res.Err? ==> res.error == Located(db, name).error
    {
      res := CountIn(db, name);
    }

    method GetCategories() returns (res: Result<seq<Category>>)
      ensures res.Ok? <==> Located(db, Categories).Ok?
      ensures res.Err? ==> res.error == Located(db, Categories).error
      ensures res.Ok? ==> res.value == CategoriesOf(ObjectStore.GetAll(Located(db, Categories).value))
    {
      var all := GetAll(Categories);
      res := match all case Err(e) => Err(e) case Ok(rs) => Ok(CategoriesOf(rs));
    }

    method AddCategory(category: Category) returns (res: Result<int>)
      requires Valid()
      modifies this
      ensures Valid() && dbReady == old(dbReady)
      ensures var rep := AddIn(old(db), Categories, CategoryRecord(category));
        db == rep.db && writes == old(writes) + rep.issued && res == rep.result
    {
      res := Add(Categories, CategoryRecord(category));
    }

    method UpdateCategory(category: Category) returns (res: Result<Category>)
      requires Valid()
      modifies this
      ensures Valid() && dbReady == old(dbReady)
      ensures var rep := PutIn(old(db), Categories, CategoryRecord(category));
        db == rep.db && writes == old(writes) + rep.issued
      ensures res == if PutIn(old(db), Categories, CategoryRecord(category)).result.Ok?
                     then Ok(category) else Err(PutIn(old(db), Categories, CategoryRecord(category)).result.error)
    {
      var r := Update(Categories, CategoryRecord(category));
      res := match r case Err(e) => Err(e) case Ok(_) => Ok(category);
    }

    method DeleteCategory(id: int) returns (res: Result<()>)
      requires Valid()
      modifies this
      ensures Valid() && dbReady == old(dbReady)
      ensures var rep := DeleteIn(old(db), Categories, id);
        db == rep.db && writes == old(writes) + rep.issued && res == rep.result
    {
      res := Delete(Categories, id);
    }

    /** getItems: the items of category `categoryId`, through the `categoryId` index. */
    method GetItems(categoryId: int) returns (res: Result<seq<Item>>)
      requires Valid()
      ensures res == GetItemsIn(db, categoryId)
      ensures db.None? ==> res == Err(NotInitialized)
      ensures res.Ok? ==> forall i :: i in res.value <==>
        ItemRecord(i) in db.value.items.value.records.Values && i.categoryId == categoryId
    {
      res := GetItemsIn(db, categoryId);
      if res.Ok? {
        GetItemsIsCategoryFilter(db.value, categoryId);
      }
    }

    method GetAllItems() returns (res: Result<seq<Item>>)
      ensures res.Ok? <==> Located(db, Items).Ok?
      ensures res.Err? ==> res.error == Located(db, Items).error
      ensures res.Ok? ==> res.value == ItemsOf(ObjectStore.GetAll(Located(db, Items).value))
    {
      var all := GetAll(Items);
      res := match all case Err(e) => Err(e) case Ok(rs) => Ok(ItemsOf(rs));
    }

    method AddItem(item: Item) returns (res: Result<int>)
      requires Valid()
      modifies this
      ensures Valid() && dbReady == old(dbReady)
      ensures var rep := AddIn(old(db), Items, ItemRecord(item));
        db == rep.db && writes == old(writes) + rep.issued && res == rep.result
    {
      res := Add(Items, ItemRecord(item));
    }

    method UpdateItem(item: Item) returns (res: Result<Item>)
      requires Valid()
      modifies this
      ensures Valid() && dbReady == old(dbReady)
      ensures var rep := PutIn(old(db), Items, ItemRecord(item));
        db == rep.db && writes == old(writes) + rep.issued
      ensures res == if PutIn(old(db), Items, ItemRecord(item)).result.Ok?
                     then Ok(item) else Err(PutIn(old(db), Items, ItemRecord(item)).result.error)
    {
      var r := Update(Items, ItemRecord(item));
      res := match r case Err(e) => Err(e) case Ok(_) => Ok(item);
    }

    method DeleteItem(id: int) returns (res: Result<()>)
      requires Valid()
      modifies this
      ensures Valid() && dbReady == old(dbReady)
      ensures var rep := DeleteIn(old(db), Items, id);
        db == rep.db && writes == old(writes) + rep.issued && res == rep.result
    {
      res := Delete(Items, id);
    }

    /** seedData: "Animals" with Dog and Cat, then "Vehicles" with Car and Airplane. */
    method SeedData() returns (res: Result<()>)
      requires Valid()
      modifies this
      ensures Valid() && dbReady == old(dbReady)
      ensures var s := Seed(old(db));
        db == s.db && writes == old(writes) + s.issued && res == s.outcome
    {
      ghost var h0, w0 := db, writes;
      ghost var g := SeedGroup(h0, "Animals", ["Dog", "Cat"]);
      res := SeedGroupOf("Animals", "Dog", "Cat");
      if res.Ok? {
        ghost var v := SeedGroup(db, "Vehicles", ["Car", "Airplane"]);
        assert Seed(h0) == Seeding(v.db, g.issued + v.issued, v.outcome);
        res := SeedGroupOf("Vehicles", "Car", "Airplane");
        AppendAssociates(w0, g.issued, v.issued);
      } else {
        assert Seed(h0) == g;
      }
    }

    /** Three of seedData's adds: a category, then two items under the key it was given. */
    method SeedGroupOf(category: string, first: string, second: string) returns (res: Result<()>)
      requires Valid()
      modifies this
      ensures Valid() && dbReady == old(dbReady)
      ensures var g := SeedGroup(old(db), category, [first, second]);
        db == g.db && writes == old(writes) + g.issued && res == g.outcome
    {
      SeedGroupUnfold(db, category, first, second);
      var categoryId := AddCategory(SeedCategory(category));
      if categoryId.Err? {
        return Err(categoryId.error);
      }
      var r := AddItem(SeedItem(first, categoryId.value));
      if r.Err? {
        return Err(r.error);
      }
      r := AddItem(SeedItem(second, categoryId.value));
      if r.Err? {
        return Err(r.error);
      }
      res := Ok(());
    }
  }
}
