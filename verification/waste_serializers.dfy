/**
 The waste-tracking serializers: which submitted attributes are accepted, how
 they are validated, what `create` writes, and the two read-only name
 projections of a waste log. Read-only attributes appear in the payloads so that
 it can be stated that they are ignored.
 */
module WasteSerializers {
  import opened Wrappers
  import opened Calendar
  import opened Text
  import opened Fields
  import opened Users
  import opened WasteModels
  import opened Store

  // ---------------------------------------------------------------------
  // WasteLogSerializer

  /**
   The writable waste-log attributes of a request body; `None` means the key is
   absent. The nullable attributes may also be sent as null (`Some(None)`).
   */
  datatype EntryPatch = EntryPatch(
    foodName: Option<string>,
    description: Option<Option<string>>,
    quantity: Option<string>,
    wasteType: Option<WasteType>,
    wasteCategory: Option<Option<CategoryId>>,
    foodCategory: Option<Option<CategoryId>>,
    date: Option<Date>,
    notes: Option<Option<string>>)

  /** A waste-log request body, read-only keys included. */
  datatype LogPayload = LogPayload(
    entry: EntryPatch,
    user: Option<UserId>,
    createdAt: Option<nat>,
    updatedAt: Option<nat>,
    wasteCategoryName: Option<string>,
    foodCategoryName: Option<string>)

  /** A patch that submits no writable attribute. */
  function NoEntryChange(): EntryPatch {
    EntryPatch(None, None, None, None, None, None, None, None)
  }

  /** The row a create starts from: the optional attributes are null. */
  const DefaultEntry := WasteEntry("", None, "", Other, None, None, Date(0, 1, 1), None)

  /** A nullable reference to a table: null, or a key the table holds; `fallback` when absent. */
  function Reference<V>(given: Option<Option<CategoryId>>, fallback: Option<CategoryId>, table: map<CategoryId, V>): (r: Option<Option<CategoryId>>)
    ensures given.None? ==> r == Some(fallback)
    ensures given.Some? ==> (r.Some? <==> given.value.None? || given.value.value in table)
    ensures given.Some? && r.Some? ==> r.value == given.value
  {
    match given
    case None => Some(fallback)
    case Some(c) => if c.None? || c.value in table then Some(c) else None
  }

  /**
   Validates a patch against the row `base`: a create is a full (`partial == false`)
   application to `DefaultEntry`, a PUT a full application to the stored entry, a
   PATCH a partial one. `food_name`, `quantity`, `waste_type` and `date` are
   required; the two categories and the two texts are optional, so an absent key
   keeps the value of `base` on every kind of application (null for a create).
   */
  function ApplyEntry(db: Db, p: EntryPatch, base: WasteEntry, partial: bool): (r: Option<WasteEntry>)
  {
    var foodName := RequiredChar(p.foodName, if partial then Some(base.foodName) else None, Some(255));
    var description := OptionalChar(p.description, base.description, None);
    var quantity := RequiredChar(p.quantity, if partial then Some(base.quantity) else None, Some(100));
    var wasteType := if p.wasteType.Some? then p.wasteType else if partial then Some(base.wasteType) else None;
    var wasteCategory := Reference(p.wasteCategory, base.wasteCategory, db.wasteCategories);
    var foodCategory := Reference(p.foodCategory, base.foodCategory, db.foodCategories);
    var date := if p.date.Some? then p.date else if partial then Some(base.date) else None;
    var notes := OptionalChar(p.notes, base.notes, None);
    if foodName.Some? && description.Some? && quantity.Some? && wasteType.Some? && wasteCategory.Some?
       && foodCategory.Some? && date.Some? && notes.Some?
    then Some(WasteEntry(foodName.value, description.value, quantity.value, wasteType.value, wasteCategory.value,
                         foodCategory.value, date.value, notes.value))
    else None
  }

  /** A PATCH that submits nothing leaves the entry as it is. */
  lemma EmptyEntryPatchKeeps(db: Db, base: WasteEntry)
    ensures ApplyEntry(db, NoEntryChange(), base, true) == Some(base)
  {
  }

  /**
   A create or PUT succeeds exactly when the four required attributes are
   submitted valid, the submitted categories exist and the optional texts hold
   no null character.
   */
  lemma FullEntryIff(db: Db, p: EntryPatch, base: WasteEntry)
    ensures ApplyEntry(db, p, base, false).Some? <==>
      && p.foodName.Some? && CleanChar(p.foodName.value, Some(255), false).Some?
      && p.quantity.Some? && CleanChar(p.quantity.value, Some(100), false).Some?
      && p.wasteType.Some? && p.date.Some?
      && (p.wasteCategory.Some? && p.wasteCategory.value.Some? ==> p.wasteCategory.value.value in db.wasteCategories)
      && (p.foodCategory.Some? && p.foodCategory.value.Some? ==> p.foodCategory.value.value in db.foodCategories)
      && (p.description.Some? && p.description.value.Some? ==> NoNul(Trim(p.description.value.value)))
      && (p.notes.Some? && p.notes.value.Some? ==> NoNul(Trim(p.notes.value.value)))
  {
  }

  /** On a create the optional attributes that are not submitted are null. */
  lemma FullEntryDefaults(db: Db, p: EntryPatch)
    requires ApplyEntry(db, p, DefaultEntry, false).Some?
    ensures
      var e := ApplyEntry(db, p, DefaultEntry, false).value;
      && (p.wasteCategory.None? ==> e.wasteCategory.None?)
      && (p.foodCategory.None? ==> e.foodCategory.None?)
      && (p.description.None? ==> e.description.None?)
      && (p.notes.None? ==> e.notes.None?)
  {
  }

  /**
   An attribute the body leaves out keeps its stored value: the optional ones on
   a PUT as on a PATCH, the required ones on a PATCH.
   */
  lemma ApplyEntryKeepsAbsent(db: Db, p: EntryPatch, base: WasteEntry, partial: bool)
    requires ApplyEntry(db, p, base, partial).Some?
    ensures var e := ApplyEntry(db, p, base, partial).value;
      && (p.description.None? ==> e.description == base.description)
      && (p.wasteCategory.None? ==> e.wasteCategory == base.wasteCategory)
      && (p.foodCategory.None? ==> e.foodCategory == base.foodCategory)
      && (p.notes.None? ==> e.notes == base.notes)
      && (partial && p.foodName.None? ==> e.foodName == base.foodName)
      && (partial && p.quantity.None? ==> e.quantity == base.quantity)
      && (partial && p.wasteType.None? ==> e.wasteType == base.wasteType)
      && (partial && p.date.None? ==> e.date == base.date)
  {
  }

  /**
   Submitted values are stored as validated: trimmed text within its length,
   null where null was sent, categories as sent and existing.
   */
  lemma ApplyEntryStores(db: Db, p: EntryPatch, base: WasteEntry, partial: bool)
    requires ApplyEntry(db, p, base, partial).Some?
    ensures var e := ApplyEntry(db, p, base, partial).value;
      && (p.foodName.Some? ==> e.foodName == Trim(p.foodName.value) && 0 < |e.foodName| <= 255)
      && (p.quantity.Some? ==> e.quantity == Trim(p.quantity.value) && 0 < |e.quantity| <= 100)
      && (p.wasteType.Some? ==> e.wasteType == p.wasteType.value)
      && (p.wasteCategory.Some? ==> e.wasteCategory == p.wasteCategory.value)
      && (e.wasteCategory.Some? && e.wasteCategory != base.wasteCategory ==> e.wasteCategory.value in db.wasteCategories)
      && (p.foodCategory.Some? ==> e.foodCategory == p.foodCategory.value)
      && (e.foodCategory.Some? && e.foodCategory != base.foodCategory ==> e.foodCategory.value in db.foodCategories)
      && (p.description.Some? ==> e.description == (if p.description.value.Some? then Some(Trim(p.description.value.value)) else None))
      && (p.notes.Some? ==> e.notes == (if p.notes.value.Some? then Some(Trim(p.notes.value.value)) else None))
      && (p.date.Some? ==> e.date == p.date.value)
  {
  }

  /** The row `WasteLogSerializer.create` inserts: owned by the requester, both timestamps now. */
  function NewWasteLog(user: UserId, e: WasteEntry, now: nat): (l: WasteLog)
    ensures l.user == user && l.entry == e
  {
    WasteLog(user, e, now, now)
  }

  /**
   `waste_category_name` and `food_category_name`: the name of the referenced
   category, or no value when the reference is null.
   */
  function WasteCategoryName(db: Db, l: WasteLog): (n: Option<string>)
    ensures n.Some? <==> l.entry.wasteCategory.Some? && l.entry.wasteCategory.value in db.wasteCategories
    ensures n.Some? ==> n.value == db.wasteCategories[l.entry.wasteCategory.value]
  {
    match l.entry.wasteCategory
    case Some(c) => if c in db.wasteCategories then Some(db.wasteCategories[c]) else None
    case None => None
  }

  function FoodCategoryName(db: Db, l: WasteLog): (n: Option<string>)
    ensures n.Some? <==> l.entry.foodCategory.Some? && l.entry.foodCategory.value in db.foodCategories
    ensures n.Some? ==> n.value == db.foodCategories[l.entry.foodCategory.value]
  {
    match l.entry.foodCategory
    case Some(c) => if c in db.foodCategories then Some(db.foodCategories[c]) else None
    case None => None
  }

  /**
   Deleting a waste category keeps every log; the logs that named it lose their
   category name and the others keep theirs.
   */
  lemma DeleteWasteCategoryProjection(db: Db, cid: CategoryId, k: LogId)
    requires k in db.wasteLogs
    ensures var db' := DeleteWasteCategory(db, cid);
      && k in db'.wasteLogs
      && (db.wasteLogs[k].entry.wasteCategory == Some(cid) ==> WasteCategoryName(db', db'.wasteLogs[k]).None?)
      && (db.wasteLogs[k].entry.wasteCategory != Some(cid) ==> WasteCategoryName(db', db'.wasteLogs[k]) == WasteCategoryName(db, db.wasteLogs[k]))
  {
  }

  /** The same for food categories. */
  lemma DeleteFoodCategoryProjection(db: Db, cid: CategoryId, k: LogId)
    requires k in db.wasteLogs
    ensures var db' := DeleteFoodCategory(db, cid);
      && k in db'.wasteLogs
      && (db.wasteLogs[k].entry.foodCategory == Some(cid) ==> FoodCategoryName(db', db'.wasteLogs[k]).None?)
      && (db.wasteLogs[k].entry.foodCategory != Some(cid) ==> FoodCategoryName(db', db'.wasteLogs[k]) == FoodCategoryName(db, db.wasteLogs[k]))
  {
  }

  // ---------------------------------------------------------------------
  // WasteReductionSerializer

  /** The writable waste-reduction attributes of a request body. */
  datatype ReductionPatch = ReductionPatch(
    title: Option<string>,
    description: Option<string>,
    amountSaved: Option<Option<string>>,
    date: Option<Date>)

  /** A waste-reduction request body, read-only keys included. */
  datatype ReductionPayload = ReductionPayload(entry: ReductionPatch, user: Option<UserId>, createdAt: Option<nat>)

  const DefaultReduction := ReductionEntry("", "", None, Date(0, 1, 1))

  /** `title`, `description` and `date` are required; `amount_saved` is optional and at most 100 characters. */
  function ApplyReduction(p: ReductionPatch, base: ReductionEntry, partial: bool): (r: Option<ReductionEntry>)
    ensures r.Some? && p.title.Some? ==> r.value.title == Trim(p.title.value) && 0 < |r.value.title| <= 255
    ensures r.Some? && p.description.Some? ==> r.value.description == Trim(p.description.value) && r.value.description != []
    ensures r.Some? && p.amountSaved.Some? && p.amountSaved.value.Some? ==>
      r.value.amountSaved == Some(Trim(p.amountSaved.value.value)) && |Trim(p.amountSaved.value.value)| <= 100
    ensures !partial ==> (r.Some? ==> p.title.Some? && p.description.Some? && p.date.Some?)
  {
    var title := RequiredChar(p.title, if partial then Some(base.title) else None, Some(255));
    var description := RequiredChar(p.description, if partial then Some(base.description) else None, None);
    var amount := OptionalChar(p.amountSaved, base.amountSaved, Some(100));
    var date := if p.date.Some? then p.date else if partial then Some(base.date) else None;
    if title.Some? && description.Some? && amount.Some? && date.Some?
    then Some(ReductionEntry(title.value, description.value, amount.value, date.value))
    else None
  }

  /**
   A create or PUT succeeds exactly when title, description and date are
   submitted valid and a submitted `amount_saved` is clean and short enough.
   */
  lemma FullReductionIff(p: ReductionPatch, base: ReductionEntry)
    ensures ApplyReduction(p, base, false).Some? <==>
      && p.title.Some? && CleanChar(p.title.value, Some(255), false).Some?
      && p.description.Some? && CleanChar(p.description.value, None, false).Some?
      && p.date.Some?
      && (p.amountSaved.Some? && p.amountSaved.value.Some? ==>
            NoNul(Trim(p.amountSaved.value.value)) && |Trim(p.amountSaved.value.value)| <= 100)
  {
  }

  /**
   An attribute the body leaves out keeps its stored value: `amount_saved` on a
   PUT as on a PATCH, the required ones on a PATCH.
   */
  lemma ApplyReductionKeepsAbsent(p: ReductionPatch, base: ReductionEntry, partial: bool)
    requires ApplyReduction(p, base, partial).Some?
    ensures var e := ApplyReduction(p, base, partial).value;
      && (p.amountSaved.None? ==> e.amountSaved == base.amountSaved)
      && (partial && p.title.None? ==> e.title == base.title)
      && (partial && p.description.None? ==> e.description == base.description)
      && (partial && p.date.None? ==> e.date == base.date)
  {
  }

  /** A reduction without `amount_saved` is valid, and stores it as null. */
  lemma AmountSavedOptional(t: string, d: string, date: Date)
    requires Trim(t) != [] && |Trim(t)| <= 255 && Trim(d) != [] && NoNul(Trim(t)) && NoNul(Trim(d))
    ensures ApplyReduction(ReductionPatch(Some(t), Some(d), None, Some(date)), DefaultReduction, false)
      == Some(ReductionEntry(Trim(t), Trim(d), None, date))
  {
  }

  /** The row `WasteReductionSerializer.create` inserts: owned by the requester. */
  function NewReduction(user: UserId, e: ReductionEntry, now: nat): (w: WasteReduction)
    ensures w.user == user && w.entry == e
  {
    WasteReduction(user, e, now)
  }
}
