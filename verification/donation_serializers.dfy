/**
 The donation and claim serializers: which submitted attributes are accepted,
 how they are validated, and what `create` writes. Attributes the serializers
 declare read-only appear in the payloads below so that it can be stated that
 they are ignored.
 */
module DonationSerializers {
  import opened Wrappers
  import opened Users
  import opened Calendar
  import opened Text
  import opened Http
  import opened Fields
  import opened DonationModels
  import opened Store

  /**
   The writable donation attributes of a request body; `None` means the key is
   absent. `category` and `pickupInstructions` may also be sent as null (`Some(None)`).
   */
  datatype ListingPatch = ListingPatch(
    foodName: Option<string>,
    description: Option<string>,
    quantity: Option<string>,
    category: Option<Option<CategoryId>>,
    expiryDate: Option<Date>,
    pickupAddress: Option<string>,
    pickupCity: Option<string>,
    pickupState: Option<string>,
    pickupZip: Option<string>,
    pickupInstructions: Option<Option<string>>)

  /** A donation request body, read-only keys included. */
  datatype DonationPayload = DonationPayload(
    listing: ListingPatch,
    donor: Option<UserId>,
    charity: Option<Option<UserId>>,
    status: Option<Status>,
    claimedAt: Option<nat>,
    receivedAt: Option<nat>)

  /** A patch that submits no writable attribute. */
  function NoChange(): ListingPatch {
    ListingPatch(None, None, None, None, None, None, None, None, None, None)
  }

  /**
   Every attribute a create or a full update must submit is present. `category`
   is not among them: the foreign key is nullable, so the serializer makes it
   optional and a create without it stores no category.
   */
  predicate RequiredPresent(p: ListingPatch) {
    && p.foodName.Some? && p.description.Some? && p.quantity.Some? && p.expiryDate.Some?
    && p.pickupAddress.Some? && p.pickupCity.Some? && p.pickupState.Some? && p.pickupZip.Some?
  }

  /** The row a create starts from: the model's defaults (only `pickupInstructions` has one that matters). */
  const DefaultListing := Listing("", "", "", None, Date(0, 1, 1), "", "", "", "", None)

  /**
   Validates a patch against the row `base` and returns the new listing, or `None`
   when validation fails. A create is a full (`partial == false`) application to
   `DefaultListing`; a PUT is a full application to the stored listing; a PATCH a
   partial one.
   */
  function ApplyListing(db: Db, p: ListingPatch, base: Listing, partial: bool): (r: Option<Listing>)
  {
    var keep := partial;
    var foodName := RequiredChar(p.foodName, if keep then Some(base.foodName) else None, Some(255));
    var description := RequiredChar(p.description, if keep then Some(base.description) else None, None);
    var quantity := RequiredChar(p.quantity, if keep then Some(base.quantity) else None, Some(100));
    var category :=
      match p.category
      case Some(c) => if c.None? || c.value in db.foodCategories then Some(c) else None
      case None => Some(base.category);
    var expiry :=
      match p.expiryDate
      case Some(e) => Some(e)
      case None => if keep then Some(base.expiryDate) else None;
    var address := RequiredChar(p.pickupAddress, if keep then Some(base.pickupAddress) else None, None);
    var city := RequiredChar(p.pickupCity, if keep then Some(base.pickupCity) else None, Some(100));
    var state := RequiredChar(p.pickupState, if keep then Some(base.pickupState) else None, Some(100));
    var zip := RequiredChar(p.pickupZip, if keep then Some(base.pickupZip) else None, Some(10));
    var instructions := OptionalChar(p.pickupInstructions, base.pickupInstructions, None);
    if foodName.Some? && description.Some? && quantity.Some? && category.Some? && expiry.Some?
       && address.Some? && city.Some? && state.Some? && zip.Some? && instructions.Some?
    then Some(Listing(foodName.value, description.value, quantity.value, category.value, expiry.value,
                      address.value, city.value, state.value, zip.value, instructions.value))
    else None
  }

  /** A PATCH that submits nothing leaves the listing as it is. */
  lemma EmptyPatchKeepsListing(db: Db, base: Listing)
    ensures ApplyListing(db, NoChange(), base, true) == Some(base)
  {
  }

  /** A create or PUT succeeds only when every required attribute is submitted. */
  lemma FullApplyNeedsRequired(db: Db, p: ListingPatch, base: Listing)
    requires ApplyListing(db, p, base, false).Some?
    ensures RequiredPresent(p)
  {
  }

  /**
   Submitted text is stored trimmed and within its `max_length`; the required
   texts are non-blank, and submitted pickup instructions hold no null character.
   */
  lemma ApplyListingCleansText(db: Db, p: ListingPatch, base: Listing, partial: bool)
    requires ApplyListing(db, p, base, partial).Some?
    ensures var l := ApplyListing(db, p, base, partial).value;
      && (p.foodName.Some? ==> l.foodName == Trim(p.foodName.value) && 0 < |l.foodName| <= 255)
      && (p.quantity.Some? ==> l.quantity == Trim(p.quantity.value) && 0 < |l.quantity| <= 100)
      && (p.pickupZip.Some? ==> l.pickupZip == Trim(p.pickupZip.value) && 0 < |l.pickupZip| <= 10)
      && (p.description.Some? ==> l.description == Trim(p.description.value) && l.description != [])
      && (p.pickupAddress.Some? ==> l.pickupAddress == Trim(p.pickupAddress.value) && l.pickupAddress != [])
      && (p.pickupCity.Some? ==> l.pickupCity == Trim(p.pickupCity.value) && 0 < |l.pickupCity| <= 100)
      && (p.pickupState.Some? ==> l.pickupState == Trim(p.pickupState.value) && 0 < |l.pickupState| <= 100)
      && (p.pickupInstructions.Some? && p.pickupInstructions.value.Some? ==>
            l.pickupInstructions == Some(Trim(p.pickupInstructions.value.value)) && NoNul(Trim(p.pickupInstructions.value.value)))
  {
  }

  /** A submitted category is stored as sent, and must be null or an existing category. */
  lemma ApplyListingCategory(db: Db, p: ListingPatch, base: Listing, partial: bool)
    requires ApplyListing(db, p, base, partial).Some? && p.category.Some?
    ensures ApplyListing(db, p, base, partial).value.category == p.category.value
    ensures p.category.value.Some? ==> p.category.value.value in db.foodCategories
  {
  }

  /**
   Attributes that are not submitted keep their value from `base`. For a full
   application this only reaches the two optional attributes, since an absent
   required one is refused.
   */
  lemma ApplyListingKeepsAbsent(db: Db, p: ListingPatch, base: Listing, partial: bool)
    requires ApplyListing(db, p, base, partial).Some?
    ensures var l := ApplyListing(db, p, base, partial).value;
      && (p.foodName.None? ==> l.foodName == base.foodName)
      && (p.description.None? ==> l.description == base.description)
      && (p.quantity.None? ==> l.quantity == base.quantity)
      && (p.category.None? ==> l.category == base.category)
      && (p.expiryDate.None? ==> l.expiryDate == base.expiryDate)
      && (p.pickupAddress.None? ==> l.pickupAddress == base.pickupAddress)
      && (p.pickupCity.None? ==> l.pickupCity == base.pickupCity)
      && (p.pickupState.None? ==> l.pickupState == base.pickupState)
      && (p.pickupZip.None? ==> l.pickupZip == base.pickupZip)
      && (p.pickupInstructions.None? ==> l.pickupInstructions == base.pickupInstructions)
  {
  }

  // ---------------------------------------------------------------------
  // DonationClaimSerializer

  /** A claim request body, read-only keys included. `donation` is a required key. */
  datatype ClaimPayload = ClaimPayload(
    donation: Option<DonationId>,
    pickupTime: Option<nat>,
    notes: Option<string>,
    charity: Option<UserId>,
    claimedAt: Option<nat>,
    isReceived: Option<bool>,
    receivedAt: Option<nat>)

  /** `validate_pickup_time`: only a time strictly before now is refused; no time is fine. */
  predicate PickupTimeValid(t: Option<nat>, now: nat) {
    !(t.Some? && t.value < now)
  }

  /**
   The serializer accepts the body: it names an existing donation and a valid
   pickup time, and the notes, a text field like any other, hold no null character.
   */
  predicate ClaimPayloadValid(db: Db, p: ClaimPayload, now: nat) {
    && p.donation.Some? && p.donation.value in db.donations && PickupTimeValid(p.pickupTime, now)
    && (p.notes.Some? ==> NoNul(Trim(p.notes.value)))
  }

  /** The stored notes: trimmed text, blank allowed, or null. */
  function CleanNotes(n: Option<string>): Option<string> {
    match n
    case Some(v) => Some(Trim(v))
    case None => None
  }

  /** The write both the claim serializer and the claim action apply to the donation. */
  function ClaimedBy(d: Donation, charity: UserId, now: nat): (d': Donation)
    ensures d'.status == Claimed && d'.charity == Some(charity) && d'.claimedAt == Some(now)
    ensures d'.donor == d.donor && d'.listing == d.listing && d'.createdAt == d.createdAt && d'.receivedAt == d.receivedAt
  {
    d.(status := Claimed, charity := Some(charity), claimedAt := Some(now), updatedAt := now)
  }

  /** The write both mark_received actions apply to the donation. */
  function ReceivedAt(d: Donation, now: nat): (d': Donation)
    ensures d'.status == Received && d'.receivedAt == Some(now)
    ensures d'.donor == d.donor && d'.charity == d.charity && d'.listing == d.listing
    ensures d'.createdAt == d.createdAt && d'.claimedAt == d.claimedAt
  {
    d.(status := Received, receivedAt := Some(now), updatedAt := now)
  }

  /** The claim written when it is marked received. */
  function ClaimReceived(c: Claim, now: nat): (c': Claim)
    ensures c'.isReceived && c'.receivedAt == Some(now)
    ensures c'.donation == c.donation && c'.charity == c.charity && c'.claimedAt == c.claimedAt
  {
    c.(isReceived := true, receivedAt := Some(now))
  }

  /** The claim row `SaveClaim` inserts for `charity` on `target`. */
  function ClaimRow(charity: UserId, target: DonationId, p: ClaimPayload, now: nat): Claim {
    NewClaim(target, charity, now, p.pickupTime, CleanNotes(p.notes))
  }

  /**
   `DonationClaimSerializer.create`: the charity is the requester, whatever the body says;
   the target donation is written as claimed (with no look at its status) and saved;
   then the claim row is inserted, which the database refuses for a repeated
   (donation, charity) pair. The donation write is not undone when the insert fails.
   */
  function SaveClaim(db: Db, charity: UserId, target: DonationId, p: ClaimPayload, now: nat): (o: Outcome)
    requires target in db.donations
    ensures o.db.donations == db.donations[target := ClaimedBy(db.donations[target], charity, now)]
    ensures o.response.Created? <==> !PairTaken(db.claims, ClaimRow(charity, target, p, now))
    ensures o.response.Created? ==>
      && o.response.id == db.nextId
      && o.db.claims == db.claims[db.nextId := ClaimRow(charity, target, p, now)]
      && o.db.nextId == db.nextId + 1
    ensures !o.response.Created? ==> o.response == ServerError && o.db.claims == db.claims && o.db.nextId == db.nextId
    ensures o.db.users == db.users && o.db.wasteLogs == db.wasteLogs && o.db.reductions == db.reductions
    ensures o.db.foodCategories == db.foodCategories
  {
    var written := db.(donations := db.donations[target := ClaimedBy(db.donations[target], charity, now)]);
    match InsertClaim(db.claims, db.nextId, ClaimRow(charity, target, p, now))
    case None => Outcome(ServerError, written)
    case Some(claims) => Outcome(Created(db.nextId), written.(claims := claims, nextId := db.nextId + 1))
  }

  /** Read-only keys of a claim body change nothing about what is saved. */
  lemma SaveClaimIgnoresReadOnly(db: Db, charity: UserId, target: DonationId, p: ClaimPayload, q: ClaimPayload, now: nat)
    requires target in db.donations
    requires p.pickupTime == q.pickupTime && p.notes == q.notes
    ensures SaveClaim(db, charity, target, p, now) == SaveClaim(db, charity, target, q, now)
  {
  }

  /** In the claim action the view repeats the serializer's write: the repeat only moves `claimed_at`. */
  lemma RepeatedClaimWrite(d: Donation, charity: UserId, first: nat, second: nat)
    ensures ClaimedBy(ClaimedBy(d, charity, first), charity, second)
         == ClaimedBy(d, charity, first).(claimedAt := Some(second), updatedAt := second)
  {
  }
}
