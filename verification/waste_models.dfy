/** The waste-tracking app's tables: waste logs and waste-reduction entries, each owned by one user. */
module WasteModels {
  import opened Wrappers
  import opened Users
  import opened Calendar

  type LogId = nat
  type ReductionId = nat
  type CategoryId = nat

  /** The four `waste_type` choices. */
  datatype WasteType = Spoiled | Expired | Leftovers | Other

  /** The editable attributes of a waste log; `description` and `notes` are optional. */
  datatype WasteEntry = WasteEntry(
    foodName: string,
    description: Option<string>,
    quantity: string,
    wasteType: WasteType,
    wasteCategory: Option<CategoryId>,
    foodCategory: Option<CategoryId>,
    date: Date,
    notes: Option<string>)

  datatype WasteLog = WasteLog(user: UserId, entry: WasteEntry, createdAt: nat, updatedAt: nat)

  /** The editable attributes of a waste-reduction entry; `amountSaved` is optional. */
  datatype ReductionEntry = ReductionEntry(
    title: string,
    description: string,
    amountSaved: Option<string>,
    date: Date)

  datatype WasteReduction = WasteReduction(user: UserId, entry: ReductionEntry, createdAt: nat)
}
