/**
 The donations app's tables: a donation listed by a donor, and a charity's claim
 on it. The descriptive attributes a donor may edit are grouped in `Listing`; the
 attributes the serializers keep read-only sit beside it in `Donation`.
 */
module DonationModels {
  import opened Wrappers
  import opened Users
  import opened Calendar

  type DonationId = nat
  type ClaimId = nat
  type CategoryId = nat

  /** The four status choices; a donation is created `Available`. */
  datatype Status = Available | Claimed | Received | Expired

  /** The editable description of a donation. */
  datatype Listing = Listing(
    foodName: string,
    description: string,
    quantity: string,
    category: Option<CategoryId>,
    expiryDate: Date,
    pickupAddress: string,
    pickupCity: string,
    pickupState: string,
    pickupZip: string,
    pickupInstructions: Option<string>)

  /** A stored donation; times are readings of the `nat` clock. */
  datatype Donation = Donation(
    donor: UserId,
    charity: Option<UserId>,
    listing: Listing,
    status: Status,
    createdAt: nat,
    updatedAt: nat,
    claimedAt: Option<nat>,
    receivedAt: Option<nat>)

  /** A stored claim of `charity` on `donation`. */
  datatype Claim = Claim(
    donation: DonationId,
    charity: UserId,
    claimedAt: nat,
    pickupTime: Option<nat>,
    notes: Option<string>,
    isReceived: bool,
    receivedAt: Option<nat>)

  /** A fresh row with the model defaults: available, no charity, no claim or receipt time. */
  function NewDonation(donor: UserId, listing: Listing, now: nat): (d: Donation)
    ensures d.donor == donor && d.listing == listing
    ensures d.status == Available
    ensures d.charity == None && d.claimedAt == None && d.receivedAt == None
    ensures d.createdAt == now && d.updatedAt == now
  {
    Donation(donor, None, listing, Available, now, now, None, None)
  }

  /** A fresh claim with the model defaults: not received, no receipt time, claimed now. */
  function NewClaim(donation: DonationId, charity: UserId, now: nat, pickupTime: Option<nat>, notes: Option<string>): (c: Claim)
    ensures c.donation == donation && c.charity == charity
    ensures !c.isReceived && c.receivedAt == None
    ensures c.claimedAt == now && c.pickupTime == pickupTime && c.notes == notes
  {
    Claim(donation, charity, now, pickupTime, notes, false, None)
  }

  /** `unique_together = ['donation', 'charity']`. */
  predicate UniqueTogether(claims: map<ClaimId, Claim>) {
    forall a, b :: a in claims && b in claims && a != b ==>
      claims[a].donation != claims[b].donation || claims[a].charity != claims[b].charity
  }

  /** Some stored claim already pairs the same donation and charity as `c`. */
  predicate PairTaken(claims: map<ClaimId, Claim>, c: Claim) {
    exists k :: k in claims && claims[k].donation == c.donation && claims[k].charity == c.charity
  }

  /**
   An INSERT into the claims table: the database refuses (an integrity error, `None`)
   a row whose (donation, charity) pair is already stored.
   */
  function InsertClaim(claims: map<ClaimId, Claim>, id: ClaimId, c: Claim): (r: Option<map<ClaimId, Claim>>)
    ensures r.None? <==> PairTaken(claims, c)
    ensures r.Some? ==> r.value == claims[id := c]
    ensures r.Some? && id !in claims && UniqueTogether(claims) ==> UniqueTogether(r.value)
  {
    if PairTaken(claims, c) then None else Some(claims[id := c])
  }
}
