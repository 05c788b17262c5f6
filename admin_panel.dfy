/**
 * The admin panel: loaded snapshots of the two stores, a category form and an item form (each
 * with a mode, an editable record and a shown flag), and the recording flag. `confirm()` is an
 * input, `alert()` is an outcome, and an unhandled rejected store request is an outcome too.
 */
module AdminPanel {
  import opened Records
  import opened ObjectStore
  import opened DbService

  datatype FormMode = AddMode | EditMode

  /** The alerts the panel raises. */
  datatype Alert = MissingNameOrPicture | MissingFields | MissingSound | MicrophoneUnavailable

  function Message(a: Alert): string
  {
    match a
    case MissingNameOrPicture => "Please provide a name and picture."
    case MissingFields => "Please fill all fields and select a category."
    case MissingSound => "Please record a sound for the item."
    case MicrophoneUnavailable => "Could not access microphone. Please check permissions."
  }

  /** How a panel action ended: normally, with an alert, or with a rejected store request. */
  datatype Outcome = Done | Alerted(alert: Alert) | Failed(error: Error)

  /** What has saveCategory alert instead of saving. */
  function CategoryAlert(c: Option<Category>): Option<Alert>
  {
    if c.None? || c.value.name == "" || c.value.picture == "" then Some(MissingNameOrPicture) else None
  }

  /** What has saveItem alert instead of saving; the field check comes before the sound check. */
  function ItemAlert(i: Option<Item>): Option<Alert>
  {
    if i.None? || i.value.name == "" || i.value.picture == "" || i.value.categoryId == 0 then
      Some(MissingFields)
    else if i.value.sound == "" then Some(MissingSound)
    else None
  }

  /** The position of the first category whose id is `k`, or `|cs|` if there is none. */
  function FirstWithId(cs: seq<Category>, k: int): (i: nat)
    ensures i <= |cs|
    ensures i < |cs| ==> cs[i].id == Some(k)
    ensures forall j | 0 <= j < i :: cs[j].id != Some(k)
  {
    if cs == [] then 0
    else if cs[0].id == Some(k) then 0
    else 1 + FirstWithId(cs[1..], k)
  }

  /** The snapshot's items of category `k` (the filter before the cascade's loop). */
  function InCategoryOf(items: seq<Item>, k: int): (out: seq<Item>)
    ensures forall i :: i in out <==> i in items && i.categoryId == k
    ensures |out| <= |items|
  {
    if items == [] then []
    else (if items[0].categoryId == k then [items[0]] else []) + InCategoryOf(items[1..], k)
  }

  /** Filtering distributes over concatenation, so the snapshot's order is kept. */
  lemma {:induction false} InCategoryOfAppend(a: seq<Item>, b: seq<Item>, k: int)
    ensures InCategoryOf(a + b, k) == InCategoryOf(a, k) + InCategoryOf(b, k)
  {
    if a == [] {
      assert a + b == b;
    } else {
      assert (a + b)[1..] == a[1..] + b;
      InCategoryOfAppend(a[1..], b, k);
    }
  }

  /** The truthy ids of `items`, in order (the loop's `if (item.id)`). */
  function TruthyIds(items: seq<Item>): seq<int>
  {
    if items == [] then []
    else
      var last := items[|items| - 1];
      TruthyIds(items[..|items| - 1]) + if TruthyId(last.id) then [last.id.value] else []
  }

  /** The truthy ids are exactly the ids of `items` that are present and non-zero. */
  lemma {:induction false} TruthyIdsAreTruthy(items: seq<Item>)
    ensures forall id :: id in TruthyIds(items) <==> exists i | i in items :: i.id == Some(id) && id != 0
  {
    if items != [] {
      var last := items[|items| - 1];
      var front := items[..|items| - 1];
      TruthyIdsAreTruthy(front);
      assert forall i :: i in items <==> i in front || i == last;
    }
  }

  /** The ids the cascade deletes from the store, in the order it deletes them. */
  function CascadeIds(items: seq<Item>, k: int): seq<int>
  {
    TruthyIds(InCategoryOf(items, k))
  }

  /** Sequential deletes from one store; the first rejected one ends the sequence. */
  function DeleteEach(h: Option<Database>, name: StoreName, ids: seq<int>): Reply<()>
  {
    if ids == [] then Reply(h, [], Ok(()))
    else
      var prev := DeleteEach(h, name, ids[..|ids| - 1]);
      if prev.result.Err? then prev
      else
        var d := DeleteIn(prev.db, name, ids[|ids| - 1]);
        Reply(d.db, prev.issued + d.issued, d.result)
  }

  /** Once a delete in the sequence is rejected, the rest are never issued. */
  lemma {:induction false} DeleteEachStopsAtFailure(h: Option<Database>, name: StoreName, ids: seq<int>, n: nat)
    requires n <= |ids|
    requires DeleteEach(h, name, ids[..n]).result.Err?
    ensures DeleteEach(h, name, ids) == DeleteEach(h, name, ids[..n])
    decreases |ids| - n
  {
    if n < |ids| {
      assert ids[..n + 1][..n] == ids[..n];
      DeleteEachStopsAtFailure(h, name, ids, n + 1);
    } else {
      assert ids[..n] == ids;
    }
  }

  /**
   * Against an opened database whose store exists, the deletes all succeed, remove exactly the
   * listed keys and keep the key generator.
   */
  lemma {:induction false} DeleteEachRemovesKeys(d: Database, name: StoreName, ids: seq<int>)
    requires StoreOf(d, name).Some?
    ensures var rep := DeleteEach(Some(d), name, ids);
      var t := StoreOf(d, name).value;
      && rep.result.Ok? && rep.db.Some?
      && rep.db.value == WithStore(d, name, Table(t.records - (set id | id in ids), t.current))
  {
    var t := StoreOf(d, name).value;
    if ids != [] {
      var front, last := ids[..|ids| - 1], ids[|ids| - 1];
      DeleteEachRemovesKeys(d, name, front);
      var gone := set id | id in front;
      assert gone + {last} == (set id | id in ids) by {
        assert forall id :: id in ids <==> id in front || id == last;
      }
      var p := DeleteEach(Some(d), name, front).db.value;
      assert p == WithStore(d, name, Table(t.records - gone, t.current));
      var rest := t.records - (gone + {last});
      assert t.records - gone - {last} == rest;
      assert WithStore(p, name, Table(rest, t.current)) == WithStore(d, name, Table(rest, t.current));
    } else {
      assert (set id | id in ids) == {};
      assert t.records - {} == t.records;
    }
  }

  /** Against an opened database whose store exists, one delete request is issued per id, in order. */
  lemma {:induction false} DeleteEachIssuesDeletes(d: Database, name: StoreName, ids: seq<int>)
    requires StoreOf(d, name).Some?
    ensures var rep := DeleteEach(Some(d), name, ids);
      && |rep.issued| == |ids|
      && forall i | 0 <= i < |ids| :: rep.issued[i] == DeleteRequest(name, ids[i])
  {
    if ids != [] {
      var front, last := ids[..|ids| - 1], ids[|ids| - 1];
      DeleteEachRemovesKeys(d, name, front);
      DeleteEachIssuesDeletes(d, name, front);
      var prev := DeleteEach(Some(d), name, front);
      var rep := DeleteEach(Some(d), name, ids);
      assert rep.issued == prev.issued + [DeleteRequest(name, last)];
    }
  }

  /**
   * Over a fresh snapshot of a valid items store, the cascade for category `k` deletes exactly
   * the keys of the records that are items of `k`, except key 0; every other record stays.
   */
  lemma CascadeTargetsCategoryItems(t: Table, k: int)
    requires ObjectStore.Valid(t)
    ensures forall j | j in CascadeIds(ItemsOf(ObjectStore.GetAll(t)), k) :: j in t.records
    ensures forall j | j in t.records ::
      j in CascadeIds(ItemsOf(ObjectStore.GetAll(t)), k) <==> InCategory(t.records[j], k) && j != 0
  {
    GetAllIsOrderedContents(t);
    var snapshot := ItemsOf(ObjectStore.GetAll(t));
    var members := InCategoryOf(snapshot, k);
    var ids := CascadeIds(snapshot, k);
    TruthyIdsAreTruthy(members);
    forall j | j in ids
      ensures j in t.records && InCategory(t.records[j], k) && j != 0
    {
      var i :| i in members && i.id == Some(j) && j != 0;
      assert ItemRecord(i) in ObjectStore.GetAll(t);
      var n :| 0 <= n < |ObjectStore.GetAll(t)| && ObjectStore.GetAll(t)[n] == ItemRecord(i);
    }
    forall j | j in t.records && InCategory(t.records[j], k) && j != 0
      ensures j in ids
    {
      var i := t.records[j].item;
      assert t.records[j] in ObjectStore.GetAll(t);
      assert i in members;
    }
  }

  /** loadData's result: categories are replaced first, items only if that worked. */
  datatype Snapshot = Snapshot(categories: seq<Category>, items: seq<Item>, outcome: Outcome)

  function Reload(h: Option<Database>, categories: seq<Category>, items: seq<Item>): Snapshot
  {
    match GetAllIn(h, Categories)
    case Err(e) => Snapshot(categories, items, Failed(e))
    case Ok(rs) =>
      match GetAllIn(h, Items)
      case Err(e) => Snapshot(CategoriesOf(rs), items, Failed(e))
      case Ok(ts) => Snapshot(CategoriesOf(rs), ItemsOf(ts), Done)
  }

  class AdminPanel {
    const dbService: DbService

    var categories: seq<Category>
    var items: seq<Item>

    var showCategoryForm: bool
    var categoryFormMode: FormMode
    var editableCategory: Option<Category>

    var showItemForm: bool
    var itemFormMode: FormMode
    var editableItem: Option<Item>

    var isRecording: bool
    var recordedAudioUrl: Option<string>
    /** Whether a media recorder has been created (`mediaRecorder != null`). */
    var hasRecorder: bool

    ghost predicate Valid()
      reads this, dbService
    {
      dbService.Valid() && (isRecording ==> hasRecorder)
    }

    twostate predicate CategoryFormUnchanged()
      reads this
    {
      showCategoryForm == old(showCategoryForm) && categoryFormMode == old(categoryFormMode) &&
      editableCategory == old(editableCategory)
    }

    twostate predicate ItemFormUnchanged()
      reads this
    {
      showItemForm == old(showItemForm) && itemFormMode == old(itemFormMode) &&
      editableItem == old(editableItem) && recordedAudioUrl == old(recordedAudioUrl)
    }

    twostate predicate RecordingUnchanged()
      reads this
    {
      isRecording == old(isRecording) && hasRecorder == old(hasRecorder)
    }

    /** The service's handle and log after a store call with reply `rep` (readiness untouched). */
    twostate predicate StoreCalled<T>(new rep: Reply<T>)
      reads this, dbService
    {
      dbService.db == rep.db && dbService.writes == old(dbService.writes) + rep.issued &&
      dbService.dbReady == old(dbService.dbReady)
    }

    /** The snapshots are what loadData makes of the current handle and the old snapshots. */
    twostate predicate ReloadedInto(res: Outcome)
      reads this, dbService
    {
      var s := Reload(dbService.db, old(categories), old(items));
      categories == s.categories && items == s.items && res == s.outcome
    }

    constructor (service: DbService)
      requires service.Valid()
      ensures Valid() && dbService == service
      ensures categories == [] && items == []
      ensures !showCategoryForm && categoryFormMode == AddMode && editableCategory == None
      ensures !showItemForm && itemFormMode == AddMode && editableItem == None
      ensures !isRecording && recordedAudioUrl == None && !hasRecorder
    {
      dbService := service;
      categories, items := [], [];
      showCategoryForm, categoryFormMode, editableCategory := false, AddMode, None;
      showItemForm, itemFormMode, editableItem := false, AddMode, None;
      isRecording, recordedAudioUrl, hasRecorder := false, None, false;
    }

    /** loadData (also what ngOnInit runs). */
    method LoadData() returns (res: Outcome)
      requires Valid()
      modifies this
      ensures Valid() && ReloadedInto(res)
      ensures CategoryFormUnchanged() && ItemFormUnchanged() && RecordingUnchanged()
    {
      var cs := dbService.GetCategories();
      if cs.Err? {
        return Failed(cs.error);
      }
      categories := cs.value;
      var its := dbService.GetAllItems();
      if its.Err? {
        return Failed(its.error);
      }
      items := its.value;
      res := Done;
    }

    /**
     * getCategoryName: the name of the first loaded category whose id is `categoryId`, or
     * "Unknown" when no loaded category has it.
     */
    function GetCategoryName(categoryId: int): (name: string)
      reads this
      ensures (forall c | c in categories :: c.id != Some(categoryId)) ==> name == "Unknown"
      ensures forall i | 0 <= i < |categories| && categories[i].id == Some(categoryId) ::
        (forall j | 0 <= j < i :: categories[j].id != Some(categoryId)) ==> name == categories[i].name
    {
      var i := FirstWithId(categories, categoryId);
      if i < |categories| then categories[i].name else "Unknown"
    }

    method ShowAddCategoryForm()
      modifies this
      ensures editableCategory == Some(Category(None, "", "")) && categoryFormMode == AddMode
      ensures showCategoryForm
      ensures ItemFormUnchanged() && RecordingUnchanged()
      ensures categories == old(categories) && items == old(items)
    {
      editableCategory := Some(Category(None, "", ""));
      categoryFormMode := AddMode;
      showCategoryForm := true;
    }

    method ShowEditCategoryForm(category: Category)
      modifies this
      ensures editableCategory == Some(category) && categoryFormMode == EditMode && showCategoryForm
      ensures ItemFormUnchanged() && RecordingUnchanged()
      ensures categories == old(categories) && items == old(items)
    {
      editableCategory := Some(category);
      categoryFormMode := EditMode;
      showCategoryForm := true;
    }

    /**
     * saveCategory: an editable record missing, or with an empty name or picture, raises the
     * alert and touches nothing. Otherwise add mode adds `{name, picture}` only (the id is
     * dropped) and edit mode puts the whole record; a rejected request leaves the form open,
     * a successful one closes it and reloads.
     */
    method SaveCategory() returns (res: Outcome)
      requires Valid()
      modifies this, dbService
      ensures Valid()
      ensures CategoryAlert(old(editableCategory)).Some? ==>
        res == Alerted(MissingNameOrPicture) && unchanged(this) && unchanged(dbService)
      ensures CategoryAlert(old(editableCategory)).None? && old(categoryFormMode) == AddMode ==>
        var c := old(editableCategory).value;
        var rep := AddIn(old(dbService.db), Categories, CategoryRecord(Category(None, c.name, c.picture)));
        StoreCalled(rep) && (if rep.result.Err? then res == Failed(rep.result.error) && unchanged(this)
                             else ClosedCategoryForm(res))
      ensures CategoryAlert(old(editableCategory)).None? && old(categoryFormMode) == EditMode ==>
        var rep := PutIn(old(dbService.db), Categories, CategoryRecord(old(editableCategory).value));
        StoreCalled(rep) && (if rep.result.Err? then res == Failed(rep.result.error) && unchanged(this)
                             else ClosedCategoryForm(res))
    {
      var category := editableCategory;
      var alert := CategoryAlert(category);
      if alert.Some? {
        return Alerted(alert.value);
      }
      if categoryFormMode == AddMode {
        var r := dbService.AddCategory(Category(None, category.value.name, category.value.picture));
        if r.Err? {
          return Failed(r.error);
        }
      } else {
        var r := dbService.UpdateCategory(category.value);
        if r.Err? {
          return Failed(r.error);
        }
      }
      CancelCategoryForm();
      res := LoadData();
    }

    /** The category form is closed and the snapshots reloaded; the rest of the panel is as it was. */
    twostate predicate ClosedCategoryForm(res: Outcome)
      reads this, dbService
    {
      !showCategoryForm && editableCategory == None && categoryFormMode == old(categoryFormMode) &&
      ItemFormUnchanged() && RecordingUnchanged() && ReloadedInto(res)
    }

    method CancelCategoryForm()
      modifies this
      ensures !showCategoryForm && editableCategory == None && categoryFormMode == old(categoryFormMode)
      ensures ItemFormUnchanged() && RecordingUnchanged()
      ensures categories == old(categories) && items == old(items)
    {
      showCategoryForm := false;
      editableCategory := None;
    }

    /**
     * deleteCategory: nothing happens unless the id is truthy and the caregiver confirms. Then
     * every item of the loaded snapshot in that category that has a truthy id is deleted, in
     * snapshot order, and only after all of them the category itself; the first rejected
     * request ends the action. A complete cascade reloads the snapshots.
     */
    method DeleteCategory(id: Option<int>, confirmed: bool) returns (res: Outcome)
      requires Valid()
      modifies this, dbService
      ensures Valid()
      ensures !(TruthyId(id) && confirmed) ==> res == Done && unchanged(this) && unchanged(dbService)
      ensures TruthyId(id) && confirmed ==>
        var cascade := DeleteEach(old(dbService.db), Items, CascadeIds(old(items), id.value));
        var last := DeleteIn(cascade.db, Categories, id.value);
        if cascade.result.Err? then
          StoreCalled(cascade) && res == Failed(cascade.result.error) && unchanged(this)
        else if last.result.Err? then
          StoreCalled(Reply(last.db, cascade.issued + last.issued, last.result)) &&
          res == Failed(last.result.error) && unchanged(this)
        else
          StoreCalled(Reply(last.db, cascade.issued + last.issued, last.result)) &&
          ReloadedInto(res) && CategoryFormUnchanged() && ItemFormUnchanged() && RecordingUnchanged()
    {
      if !(TruthyId(id) && confirmed) {
        return Done;
      }
      var k := id.value;
      var r := DeleteEachItem(InCategoryOf(items, k));
      if r.Err? {
        return Failed(r.error);
      }
      r := dbService.DeleteCategory(k);
      if r.Err? {
        return Failed(r.error);
      }
      res := LoadData();
    }

    /** The cascade's loop: delete each item with a truthy id, stopping at the first rejection. */
    method DeleteEachItem(toDelete: seq<Item>) returns (res: Result<()>)
      requires dbService.Valid()
      modifies dbService
      ensures dbService.Valid() && dbService.dbReady == old(dbService.dbReady)
      ensures var rep := DeleteEach(old(dbService.db), Items, TruthyIds(toDelete));
        StoreCalled(rep) && res == rep.result
    {
      ghost var h0, w0 := dbService.db, dbService.writes;
      ghost var done: Reply<()> := Reply(h0, [], Ok(()));
      var i := 0;
      while i < |toDelete|
        invariant 0 <= i <= |toDelete|
        invariant dbService.Valid() && dbService.dbReady == old(dbService.dbReady)
        invariant done == DeleteEach(h0, Items, TruthyIds(toDelete[..i])) && done.result.Ok?
        invariant dbService.db == done.db && dbService.writes == w0 + done.issued
      {
        var item := toDelete[i];
        DeleteEachNext(h0, Items, toDelete, i, done);
        if TruthyId(item.id) {
          ghost var step := DeleteIn(done.db, Items, item.id.value);
          var r := dbService.DeleteItem(item.id.value);
          done := Reply(step.db, done.issued + step.issued, step.result);
          if r.Err? {
            DeleteEachFailureIsFinal(h0, Items, toDelete, i + 1);
            return r;
          }
        }
        i := i + 1;
      }
      assert toDelete[..i] == toDelete;
      res := Ok(());
    }

    method ShowAddItemForm()
      modifies this
      ensures editableItem == Some(Item(None, 0, "", "", "")) && itemFormMode == AddMode
      ensures recordedAudioUrl == None && showItemForm
      ensures CategoryFormUnchanged() && RecordingUnchanged()
      ensures categories == old(categories) && items == old(items)
    {
      editableItem := Some(Item(None, 0, "", "", ""));
      itemFormMode := AddMode;
      recordedAudioUrl := None;
      showItemForm := true;
    }

    method ShowEditItemForm(item: Item)
      modifies this
      ensures editableItem == Some(item) && itemFormMode == EditMode
      ensures recordedAudioUrl == Some(item.sound) && showItemForm
      ensures CategoryFormUnchanged() && RecordingUnchanged()
      ensures categories == old(categories) && items == old(items)
    {
      editableItem := Some(item);
      itemFormMode := EditMode;
      recordedAudioUrl := Some(item.sound);
      showItemForm := true;
    }

    /**
     * saveItem: a missing record, an empty name or picture, or categoryId 0 raises the fields
     * alert; an empty sound raises the sound alert; neither touches anything. Otherwise add
     * mode adds the record as it is (any id included) and edit mode puts it; a rejected request
     * leaves the form open, a successful one closes it (stopping any recording) and reloads.
     */
    method SaveItem() returns (res: Outcome)
      requires Valid()
      modifies this, dbService
      ensures Valid()
      ensures ItemAlert(old(editableItem)).Some? ==>
        res == Alerted(ItemAlert(old(editableItem)).value) && unchanged(this) && unchanged(dbService)
      ensures ItemAlert(old(editableItem)).None? && old(itemFormMode) == AddMode ==>
        var rep := AddIn(old(dbService.db), Items, ItemRecord(old(editableItem).value));
        StoreCalled(rep) && (if rep.result.Err? then res == Failed(rep.result.error) && unchanged(this)
                             else ClosedItemForm(res))
      ensures ItemAlert(old(editableItem)).None? && old(itemFormMode) == EditMode ==>
        var rep := PutIn(old(dbService.db), Items, ItemRecord(old(editableItem).value));
        StoreCalled(rep) && (if rep.result.Err? then res == Failed(rep.result.error) && unchanged(this)
                             else ClosedItemForm(res))
    {
      var item := editableItem;
      var alert := ItemAlert(item);
      if alert.Some? {
        return Alerted(alert.value);
      }
      if itemFormMode == AddMode {
        var r := dbService.AddItem(item.value);
        if r.Err? {
          return Failed(r.error);
        }
      } else {
        var r := dbService.UpdateItem(item.value);
        if r.Err? {
          return Failed(r.error);
        }
      }
      CancelItemForm();
      res := LoadData();
    }

    /** The item form is closed, recording stopped, the snapshots reloaded. */
    twostate predicate ClosedItemForm(res: Outcome)
      reads this, dbService
    {
      !showItemForm && editableItem == None && itemFormMode == old(itemFormMode) &&
      recordedAudioUrl == old(recordedAudioUrl) && !isRecording && hasRecorder == old(hasRecorder) &&
      CategoryFormUnchanged() && ReloadedInto(res)
    }

    method CancelItemForm()
      requires Valid()
      modifies this
      ensures Valid()
      ensures !showItemForm && editableItem == None && itemFormMode == old(itemFormMode)
      ensures recordedAudioUrl == old(recordedAudioUrl)
      ensures !isRecording && hasRecorder == old(hasRecorder)
      ensures CategoryFormUnchanged()
      ensures categories == old(categories) && items == old(items)
    {
      showItemForm := false;
      editableItem := None;
      StopRecording();
    }

    /** deleteItem: with a truthy id and confirmation, delete it and reload; otherwise nothing. */
    method DeleteItem(id: Option<int>, confirmed: bool) returns (res: Outcome)
      requires Valid()
      modifies this, dbService
      ensures Valid()
      ensures !(TruthyId(id) && confirmed) ==> res == Done && unchanged(this) && unchanged(dbService)
      ensures TruthyId(id) && confirmed ==>
        var rep := DeleteIn(old(dbService.db), Items, id.value);
        StoreCalled(rep) &&
        if rep.result.Err? then res == Failed(rep.result.error) && unchanged(this)
        else ReloadedInto(res) && CategoryFormUnchanged() && ItemFormUnchanged() && RecordingUnchanged()
    {
      if !(TruthyId(id) && confirmed) {
        return Done;
      }
      var r := dbService.DeleteItem(id.value);
      if r.Err? {
        return Failed(r.error);
      }
      res := LoadData();
    }

    /**
     * The encoded picture a file read produced lands in the editable record of the form it was
     * picked for, if that form has one.
     */
    method PictureEncoded(forCategory: bool, base64: string)
      modifies this
      ensures forCategory && old(editableCategory).Some? ==>
        editableCategory == Some(old(editableCategory).value.(picture := base64)) && ItemFormUnchanged()
      ensures !forCategory && old(editableItem).Some? ==>
        editableItem == Some(old(editableItem).value.(picture := base64)) && CategoryFormUnchanged() &&
        recordedAudioUrl == old(recordedAudioUrl)
      ensures !(forCategory && old(editableCategory).Some?) && !(!forCategory && old(editableItem).Some?) ==>
        CategoryFormUnchanged() && ItemFormUnchanged()
      ensures showCategoryForm == old(showCategoryForm) && categoryFormMode == old(categoryFormMode)
      ensures showItemForm == old(showItemForm) && itemFormMode == old(itemFormMode)
      ensures RecordingUnchanged() && categories == old(categories) && items == old(items)
    {
      if forCategory && editableCategory.Some? {
        editableCategory := Some(editableCategory.value.(picture := base64));
      } else if !forCategory && editableItem.Some? {
        editableItem := Some(editableItem.value.(picture := base64));
      }
    }

    /**
     * toggleRecording: stop when recording; otherwise start, which succeeds only when the
     * microphone is granted and alerts when it is not.
     */
    method ToggleRecording(microphoneGranted: bool) returns (res: Outcome)
      requires Valid()
      modifies this
      ensures Valid()
      ensures old(isRecording) ==> !isRecording && res == Done && hasRecorder
      ensures !old(isRecording) && microphoneGranted ==> isRecording && hasRecorder && res == Done
      ensures !old(isRecording) && !microphoneGranted ==>
        res == Alerted(MicrophoneUnavailable) && RecordingUnchanged()
      ensures CategoryFormUnchanged() && ItemFormUnchanged()
      ensures categories == old(categories) && items == old(items)
    {
      if isRecording {
        StopRecording();
        res := Done;
      } else if microphoneGranted {
        hasRecorder := true;
        isRecording := true;
        res := Done;
      } else {
        res := Alerted(MicrophoneUnavailable);
      }
    }

    /** stopRecording: only a created recorder that is recording is stopped. */
    method StopRecording()
      requires Valid()
      modifies this
      ensures Valid()
      ensures !isRecording && hasRecorder == old(hasRecorder)
      ensures !old(isRecording) ==> RecordingUnchanged()
      ensures CategoryFormUnchanged() && ItemFormUnchanged()
      ensures categories == old(categories) && items == old(items)
    {
      if hasRecorder && isRecording {
        isRecording := false;
      }
    }

    /**
     * The encoded recording arrives after the recorder stops: it becomes the recorded audio and
     * the editable item's sound, if an item is being edited.
     */
    method AudioEncoded(base64: string)
      modifies this
      ensures recordedAudioUrl == Some(base64)
      ensures editableItem == if old(editableItem).Some? then Some(old(editableItem).value.(sound := base64)) else None
      ensures showItemForm == old(showItemForm) && itemFormMode == old(itemFormMode)
      ensures CategoryFormUnchanged() && RecordingUnchanged()
      ensures categories == old(categories) && items == old(items)
    {
      recordedAudioUrl := Some(base64);
      if editableItem.Some? {
        editableItem := Some(editableItem.value.(sound := base64));
      }
    }
  }

  /** One more item of the loop: its delete is issued after the earlier ones iff its id is truthy. */
  lemma DeleteEachNext(h: Option<Database>, name: StoreName, items: seq<Item>, i: nat, prev: Reply<()>)
    requires i < |items|
    requires prev == DeleteEach(h, name, TruthyIds(items[..i])) && prev.result.Ok?
    ensures !TruthyId(items[i].id) ==> DeleteEach(h, name, TruthyIds(items[..i + 1])) == prev
    ensures TruthyId(items[i].id) ==>
      var d := DeleteIn(prev.db, name, items[i].id.value);
      DeleteEach(h, name, TruthyIds(items[..i + 1])) == Reply(d.db, prev.issued + d.issued, d.result)
  {
    assert items[..i + 1][..i] == items[..i];
    var ids := TruthyIds(items[..i + 1]);
    if TruthyId(items[i].id) {
      assert ids == TruthyIds(items[..i]) + [items[i].id.value];
      assert ids[..|ids| - 1] == TruthyIds(items[..i]);
    } else {
      assert ids == TruthyIds(items[..i]) + [];
      assert ids == TruthyIds(items[..i]);
    }
  }

  /** A rejection while deleting a prefix's items is the outcome of the whole cascade. */
  lemma DeleteEachFailureIsFinal(h: Option<Database>, name: StoreName, items: seq<Item>, n: nat)
    requires n <= |items|
    requires DeleteEach(h, name, TruthyIds(items[..n])).result.Err?
    ensures DeleteEach(h, name, TruthyIds(items)) == DeleteEach(h, name, TruthyIds(items[..n]))
  {
    TruthyIdsPrefix(items, n);
    DeleteEachStopsAtFailure(h, name, TruthyIds(items), |TruthyIds(items[..n])|);
  }

  /** The truthy ids of a prefix are a prefix of the truthy ids. */
  lemma {:induction false} TruthyIdsPrefix(items: seq<Item>, n: nat)
    requires n <= |items|
    ensures |TruthyIds(items[..n])| <= |TruthyIds(items)|
    ensures TruthyIds(items)[..|TruthyIds(items[..n])|] == TruthyIds(items[..n])
    decreases |items| - n
  {
    if n < |items| {
      TruthyIdsPrefix(items, n + 1);
      assert items[..n + 1][..n] == items[..n];
    } else {
      assert items[..n] == items;
    }
  }
}
