/**
 * One object store of the Indexed Database API, as the service creates it: in-line keys at key
 * path `id` and a key generator (autoIncrement). Records live in a map from key to value; the
 * key generator's current number is kept beside them (Indexed Database API 3.0, section 2.11).
 */
module ObjectStore {
  import opened Records

  /** The largest key a key generator hands out, 2^53. */
  const MaxGeneratedKey: int := 9007199254740992

  /** The records of one store, and its key generator's current number. */
  datatype Table = Table(records: map<int, Record>, current: int)

  /**
   * What the engine guarantees of every store: the generator's number stays in [1, 2^53 + 1],
   * every record carries its own key, and while the generator is not exhausted every key is
   * below its current number.
   */
  ghost predicate Valid(t: Table)
  {
    && 1 <= t.current <= MaxGeneratedKey + 1
    && (forall k | k in t.records :: Id(t.records[k]) == Some(k))
    && (t.current <= MaxGeneratedKey ==> forall k | k in t.records :: k < t.current)
  }

  /** A freshly created store: no records, generator at 1. */
  function Empty(): (t: Table)
    ensures Valid(t) && t.records == map[] && t.current == 1
  {
    Table(map[], 1)
  }

  /** The generator's next key, or ConstraintError once it has passed 2^53. */
  function GenerateKey(t: Table): Result<int>
  {
    if t.current > MaxGeneratedKey then Err(ConstraintError) else Ok(t.current)
  }

  /** The generator's number after a record is stored under an explicit key. */
  function PossiblyUpdate(current: int, key: int): (c: int)
    ensures current <= c
    ensures key <= MaxGeneratedKey ==> key < c
    ensures key < current ==> c == current
  {
    var v := if key < MaxGeneratedKey then key else MaxGeneratedKey;
    if v >= current then v + 1 else current
  }

  /** A successful store request: the new table and the key the record was stored under. */
  datatype Stored = Stored(table: Table, key: int)

  /**
   * The standard's "store a record into an object store": take the record's own key, or
   * generate one and inject it; refuse an existing key when `noOverwrite`. A failed request
   * leaves the table (generator included) as it was.
   */
  function StoreRecord(t: Table, r: Record, noOverwrite: bool): Result<Stored>
  {
    match Id(r)
    case None =>
      (match GenerateKey(t)
       case Err(e) => Err(e)
       case Ok(k) =>
         if noOverwrite && k in t.records then Err(ConstraintError)
         else Ok(Stored(Table(t.records[k := WithId(r, k)], k + 1), k)))
    case Some(k) =>
      if noOverwrite && k in t.records then Err(ConstraintError)
      else Ok(Stored(Table(t.records[k := r], PossiblyUpdate(t.current, k)), k))
  }

  /** IDBObjectStore.add: store without overwriting. */
  function Add(t: Table, r: Record): Result<Stored>
  {
    StoreRecord(t, r, true)
  }

  /** IDBObjectStore.put: store, replacing any record under the same key. */
  function Put(t: Table, r: Record): Result<Stored>
  {
    StoreRecord(t, r, false)
  }

  /** IDBObjectStore.delete: drop the record under `k`, if any; the generator is untouched. */
  function Delete(t: Table, k: int): Table
  {
    Table(t.records - {k}, t.current)
  }

  /** IDBObjectStore.count. */
  function Count(t: Table): nat
  {
    |t.records|
  }

  lemma NonEmpty(s: set<int>)
    requires s != {}
    ensures exists x :: x in s
  {
    if forall x :: x !in s {
      assert false;
    }
  }

  lemma LeastExists(s: set<int>)
    requires s != {}
    ensures exists m :: m in s && forall x | x in s :: m <= x
    decreases |s|
  {
    NonEmpty(s);
    var e :| e in s;
    if s != {e} {
      var s' := s - {e};
      LeastExists(s');
      var y :| y in s' && forall z | z in s' :: y <= z;
      assert forall z | z in s :: z == e || z in s';
      if e > y {
        assert forall z | z in s :: y <= z;
      } else {
        assert forall z | z in s :: e <= z;
      }
    } else {
      assert forall z | z in s :: e <= z;
    }
  }

  /** The smallest key of a non-empty key set. */
  function Least(s: set<int>): (m: int)
    requires s != {}
    ensures m in s && forall x | x in s :: m <= x
  {
    LeastExists(s);
    var m :| m in s && forall x | x in s :: m <= x; m
  }

  /** The keys of `s`, each once, in ascending order. */
  function Ascending(s: set<int>): (ks: seq<int>)
    ensures |ks| == |s|
    ensures forall i | 0 <= i < |ks| :: ks[i] in s
    ensures forall i, j | 0 <= i < j < |ks| :: ks[i] < ks[j]
    decreases |s|
  {
    if s == {} then []
    else
      var m := Least(s);
      var rest := Ascending(s - {m});
      var ks := [m] + rest;
      assert forall i | 1 <= i < |ks| :: ks[i] == rest[i - 1] && m < ks[i];
      ks
  }

  /** Every key of `s` is listed by `Ascending(s)`. */
  lemma {:induction false} AscendingListsAll(s: set<int>)
    ensures forall k | k in s :: k in Ascending(s)
    decreases |s|
  {
    if s != {} {
      var m := Least(s);
      AscendingListsAll(s - {m});
      assert forall k | k in s :: k == m || k in s - {m};
    }
  }

  /** IDBObjectStore.getAll: every record, in ascending key order. */
  function GetAll(t: Table): seq<Record>
  {
    var ks := Ascending(t.records.Keys);
    seq(|ks|, i requires 0 <= i < |ks| => t.records[ks[i]])
  }

  /** The record sits in the `categoryId` index under key `k`. */
  predicate InCategory(r: Record, k: int)
  {
    r.ItemRecord? && r.item.categoryId == k
  }

  /** The records of `rs` that are items of category `k`, order kept. */
  function Matching(rs: seq<Record>, k: int): (out: seq<Record>)
    ensures forall r :: r in out <==> r in rs && InCategory(r, k)
    ensures |out| <= |rs|
  {
    if rs == [] then []
    else if InCategory(rs[0], k) then [rs[0]] + Matching(rs[1..], k)
    else Matching(rs[1..], k)
  }

  /**
   * getAll(k) on the non-unique `categoryId` index: entries are ordered by index key, then by
   * primary key, so the records under one index key come in ascending primary-key order.
   * A category record has no `categoryId` and is not indexed.
   */
  function IndexGetAll(t: Table, k: int): seq<Record>
  {
    Matching(GetAll(t), k)
  }

  // ---------------------------------------------------------------------------------------
  // Properties of single requests
  // ---------------------------------------------------------------------------------------

  /**
   * add fails exactly when the generator is exhausted (no `id`) or the record's own key is
   * taken; otherwise it stores the record under a key that was not in the store, leaves every
   * other key alone, and a generated key is the generator's number, which then moves past it.
   */
  lemma AddAssignsFreshKey(t: Table, r: Record)
    requires Valid(t)
    ensures Add(t, r).Ok? <==>
      (if Id(r).None? then t.current <= MaxGeneratedKey else Id(r).value !in t.records)
    ensures Add(t, r).Ok? ==>
      var s := Add(t, r).value;
      && s.key !in t.records
      && s.table.records == t.records[s.key := WithId(r, s.key)]
      && Valid(s.table)
      && (Id(r).None? ==> s.key == t.current && s.table.current == s.key + 1)
      && (Id(r).Some? ==> s.key == Id(r).value)
  {
  }

  /** An add or put on a store fails only with ConstraintError (a taken key or an exhausted generator). */
  lemma StoreFailureIsConstraint(t: Table, r: Record, noOverwrite: bool)
    requires StoreRecord(t, r, noOverwrite).Err?
    ensures StoreRecord(t, r, noOverwrite).error == ConstraintError
  {
  }

  /**
   * put of a record that has an `id` always succeeds, maps that key to exactly that record and
   * leaves every other key's record unchanged; without an `id` it generates a key like add.
   */
  lemma PutStoresRecord(t: Table, r: Record)
    requires Valid(t)
    ensures Put(t, r).Ok? <==> Id(r).Some? || t.current <= MaxGeneratedKey
    ensures Put(t, r).Ok? ==>
      var s := Put(t, r).value;
      && Valid(s.table)
      && s.table.records == t.records[s.key := WithId(r, s.key)]
      && t.current <= s.table.current
      && (Id(r).Some? ==> s.key == Id(r).value && s.table.records[s.key] == r)
      && (Id(r).None? ==> s.key == t.current && s.key !in t.records)
  {
  }

  /** Putting the same full record twice leaves the store as putting it once. */
  lemma PutIdempotent(t: Table, r: Record)
    requires Valid(t) && Id(r).Some?
    ensures Put(t, r).Ok?
    ensures Put(Put(t, r).value.table, r) == Put(t, r)
  {
    var s := Put(t, r).value;
    var k := Id(r).value;
    assert s.table.records[k := r] == s.table.records;
    assert PossiblyUpdate(s.table.current, k) == s.table.current;
  }

  /**
   * delete removes that key and only that key, never fails, keeps the generator (keys are not
   * reused), and deleting an absent key or deleting twice changes nothing.
   */
  lemma DeleteRemovesOnlyKey(t: Table, k: int)
    requires Valid(t)
    ensures Valid(Delete(t, k))
    ensures Delete(t, k).records.Keys == t.records.Keys - {k}
    ensures forall j | j in Delete(t, k).records :: Delete(t, k).records[j] == t.records[j]
    ensures Delete(t, k).current == t.current
    ensures k !in t.records ==> Delete(t, k) == t
    ensures Delete(Delete(t, k), k) == Delete(t, k)
    ensures Count(Delete(t, k)) == if k in t.records then Count(t) - 1 else Count(t)
  {
  }

  /**
   * getAll holds every record once, in strictly ascending key order, and its length is the
   * store's count.
   */
  lemma GetAllIsOrderedContents(t: Table)
    requires Valid(t)
    ensures |GetAll(t)| == Count(t)
    ensures forall i | 0 <= i < |GetAll(t)| ::
      Id(GetAll(t)[i]).Some? && Id(GetAll(t)[i]).value in t.records &&
      t.records[Id(GetAll(t)[i]).value] == GetAll(t)[i]
    ensures forall k | k in t.records :: t.records[k] in GetAll(t)
    ensures forall i, j | 0 <= i < j < |GetAll(t)| ::
      Id(GetAll(t)[i]).value < Id(GetAll(t)[j]).value
  {
    var ks := Ascending(t.records.Keys);
    var g := GetAll(t);
    AscendingListsAll(t.records.Keys);
    assert |t.records.Keys| == |t.records|;
    forall k | k in t.records
      ensures t.records[k] in g
    {
      var i :| 0 <= i < |ks| && ks[i] == k;
      assert g[i] == t.records[k];
    }
  }

  /**
   * getAll(k) on the index returns exactly the items whose categoryId is k, each once, in
   * ascending key order, and nothing when no item has that category.
   */
  lemma IndexGetAllIsCategoryFilter(t: Table, k: int)
    requires Valid(t)
    ensures forall r :: r in IndexGetAll(t, k) <==> r in t.records.Values && InCategory(r, k)
    ensures (forall j | j in t.records :: !InCategory(t.records[j], k)) <==> IndexGetAll(t, k) == []
    ensures forall i | 0 <= i < |IndexGetAll(t, k)| :: Id(IndexGetAll(t, k)[i]).Some?
    ensures forall i, j | 0 <= i < j < |IndexGetAll(t, k)| ::
      Id(IndexGetAll(t, k)[i]).value < Id(IndexGetAll(t, k)[j]).value
  {
    GetAllIsOrderedContents(t);
    var g := GetAll(t);
    var out := IndexGetAll(t, k);
    forall r | r in t.records.Values
      ensures r in g
    {
      var j :| j in t.records && t.records[j] == r;
    }
    forall r | r in g
      ensures r in t.records.Values
    {
      var i :| 0 <= i < |g| && g[i] == r;
      assert t.records[Id(g[i]).value] == r;
    }
    if out != [] {
      var r := out[0];
      assert r in t.records.Values;
      var j :| j in t.records && t.records[j] == r;
      assert InCategory(t.records[j], k);
    }
    MatchingOrdered(g, k);
  }

  lemma {:induction false} MatchingOrdered(rs: seq<Record>, k: int)
    requires forall i | 0 <= i < |rs| :: Id(rs[i]).Some?
    requires forall i, j | 0 <= i < j < |rs| :: Id(rs[i]).value < Id(rs[j]).value
    ensures forall i | 0 <= i < |Matching(rs, k)| :: Id(Matching(rs, k)[i]).Some?
    ensures forall i, j | 0 <= i < j < |Matching(rs, k)| ::
      Id(Matching(rs, k)[i]).value < Id(Matching(rs, k)[j]).value
  {
    if rs != [] {
      MatchingOrdered(rs[1..], k);
      var tail := Matching(rs[1..], k);
      forall r | r in tail
        ensures Id(rs[0]).value < Id(r).value
      {
        var j :| 0 <= j < |rs[1..]| && rs[1..][j] == r;
        assert rs[j + 1] == r;
      }
    }
  }

  // ---------------------------------------------------------------------------------------
  // Sequences of requests: the key generator never hands out a key twice
  // ---------------------------------------------------------------------------------------

  /** A request that changes a store. */
  datatype Op = AddOp(record: Record) | PutOp(record: Record) | DeleteOp(key: int)

  /** The outcome of one request on the store: a failed request leaves it unchanged. */
  function StepResult(t: Table, op: Op): Result<Stored>
  {
    match op
    case AddOp(r) => Add(t, r)
    case PutOp(r) => Put(t, r)
    case DeleteOp(k) => Ok(Stored(Delete(t, k), k))
  }

  function Step(t: Table, op: Op): Table
  {
    match StepResult(t, op)
    case Ok(s) => s.table
    case Err(_) => t
  }

  /** The key the generator handed out during `op`, if it was used. */
  function StepKeys(t: Table, op: Op): seq<int>
  {
    match op
    case DeleteOp(_) => []
    case AddOp(r) => if Id(r).None? && Add(t, r).Ok? then [Add(t, r).value.key] else []
    case PutOp(r) => if Id(r).None? && Put(t, r).Ok? then [Put(t, r).value.key] else []
  }

  function Run(t: Table, ops: seq<Op>): Table
    decreases |ops|
  {
    if ops == [] then t else Run(Step(t, ops[0]), ops[1..])
  }

  /** All keys the generator handed out while `ops` ran, in the order they were handed out. */
  function GeneratedKeys(t: Table, ops: seq<Op>): seq<int>
    decreases |ops|
  {
    if ops == [] then [] else StepKeys(t, ops[0]) + GeneratedKeys(Step(t, ops[0]), ops[1..])
  }

  lemma StepKeepsValid(t: Table, op: Op)
    requires Valid(t)
    ensures Valid(Step(t, op)) && t.current <= Step(t, op).current
    ensures |StepKeys(t, op)| <= 1
    ensures StepKeys(t, op) != [] ==>
      StepKeys(t, op)[0] == t.current && Step(t, op).current == t.current + 1 &&
      t.current <= MaxGeneratedKey
  {
    match op
    case AddOp(r) => AddAssignsFreshKey(t, r);
    case PutOp(r) => PutStoresRecord(t, r);
    case DeleteOp(k) => DeleteRemovesOnlyKey(t, k);
  }

  /**
   * Over any sequence of add, put and delete requests the generated keys are strictly
   * increasing, none of them was a key of the store before the sequence, and the generator's
   * number never goes down.
   */
  lemma {:induction false} GeneratedKeysIncrease(t: Table, ops: seq<Op>)
    requires Valid(t)
    ensures Valid(Run(t, ops)) && t.current <= Run(t, ops).current
    ensures GeneratedKeys(t, ops) != [] ==> t.current <= MaxGeneratedKey
    ensures forall i | 0 <= i < |GeneratedKeys(t, ops)| ::
      t.current <= GeneratedKeys(t, ops)[i] < Run(t, ops).current &&
      GeneratedKeys(t, ops)[i] !in t.records
    ensures forall i, j | 0 <= i < j < |GeneratedKeys(t, ops)| ::
      GeneratedKeys(t, ops)[i] < GeneratedKeys(t, ops)[j]
    decreases |ops|
  {
    if ops != [] {
      var t' := Step(t, ops[0]);
      StepKeepsValid(t, ops[0]);
      GeneratedKeysIncrease(t', ops[1..]);
      var head := StepKeys(t, ops[0]);
      var tail := GeneratedKeys(t', ops[1..]);
      var g := GeneratedKeys(t, ops);
      assert g == head + tail;
      forall i | 0 <= i < |g|
        ensures t.current <= g[i] < Run(t, ops).current && g[i] !in t.records
      {
        assert t.current <= MaxGeneratedKey;
        if i < |head| {
          assert g[i] == t.current;
        } else {
          assert g[i] == tail[i - |head|];
        }
      }
    }
  }
}
