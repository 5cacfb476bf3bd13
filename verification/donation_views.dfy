/**
 `DonationViewSet`: the per-action permission table, the role-scoped queryset
 detail actions look their target up in, and the handlers. Each handler is a
 pure step from the database, the caller, the clock and the request body to a
 response and the next database.
 */
module DonationViews {
  import opened Wrappers
  import opened Users
  import opened Http
  import opened Permissions
  import opened DonationModels
  import opened Store
  import opened DonationSerializers
  import Ordering

  datatype Action =
    | List | Retrieve | Create | Update | PartialUpdate | Destroy
    | ClaimAction | MarkReceivedAction | MyDonationsAction | AvailableAction | ClaimedAction

  /** `get_permissions`: the only permission classes the framework consults. */
  function Gate(a: Action): PermissionClass {
    match a
    case Create => IsVerifiedDonorClass
    case Update | PartialUpdate | Destroy => IsOwnerOrAdminClass
    case ClaimAction | MarkReceivedAction => IsVerifiedCharityClass
    case _ => IsAuthenticatedClass
  }

  /** The classes the `@action` decorators name; `get_permissions` never reads them. */
  function DeclaredClasses(a: Action): Option<PermissionClass> {
    match a
    case ClaimAction | MarkReceivedAction => Some(IsVerifiedCharityClass)
    case MyDonationsAction => Some(IsAdminOrDonorClass)
    case AvailableAction | ClaimedAction => Some(IsCharityClass)
    case _ => None
  }

  /**
   The effective gate of the list actions is plain authentication, so a donor may list
   the available donations and a charity may call my_donations, which their
   decorators would refuse.
   */
  lemma DecoratorClassesIgnored(u: User)
    ensures Gate(MyDonationsAction) == Gate(AvailableAction) == Gate(ClaimedAction) == IsAuthenticatedClass
    ensures u.role == Donor ==>
      HasPermission(Gate(AvailableAction), Authenticated(u)) && !HasPermission(DeclaredClasses(AvailableAction).value, Authenticated(u))
    ensures u.role == Charity ==>
      HasPermission(Gate(MyDonationsAction), Authenticated(u)) && !HasPermission(DeclaredClasses(MyDonationsAction).value, Authenticated(u))
  {
  }

  /** Admins pass neither the create gate nor the claim and mark_received gates. */
  lemma AdminCannotCreateOrClaim(u: User)
    requires u.role == Admin
    ensures !HasPermission(Gate(Create), Authenticated(u))
    ensures !HasPermission(Gate(ClaimAction), Authenticated(u))
    ensures !HasPermission(Gate(MarkReceivedAction), Authenticated(u))
  {
  }

  // ---------------------------------------------------------------------
  // get_queryset

  predicate VisibleTo(d: Donation, u: User) {
    match u.role
    case Admin => true
    case Donor => d.donor == u.id
    case Charity => d.status == Available || d.charity == Some(u.id)
    case Unlisted => false
  }

  /** The donations `u` can see, and so the only ones a detail action of `u` can reach. */
  function Visible(db: Db, u: User): (ids: set<DonationId>)
    ensures ids <= db.donations.Keys
    ensures u.role == Admin ==> ids == db.donations.Keys
    ensures u.role == Donor ==> forall k :: k in ids <==> k in db.donations && db.donations[k].donor == u.id
    ensures u.role == Charity ==> forall k :: k in ids <==>
      k in db.donations && (db.donations[k].status == Available || db.donations[k].charity == Some(u.id))
    ensures u.role == Unlisted ==> ids == {}
  {
    set k | k in db.donations && VisibleTo(db.donations[k], u)
  }

  /**
   The checks every detail action runs before its body: the view-level gate, the
   queryset lookup (which fails with an exception for an anonymous caller, because
   it reads the caller's role), and the object-level gate.
   */
  function DetailAccess(db: Db, r: Requester, a: Action, id: DonationId): (acc: Access)
    ensures acc.Granted? <==>
      && HasPermission(Gate(a), r) && r.Authenticated? && id in Visible(db, r.user)
      && HasObjectPermission(Gate(a), r, DonationOwner(db.donations[id]))
    ensures acc.Granted? ==> id in db.donations
    ensures !HasPermission(Gate(a), r) ==> acc == Refused(Forbidden(PermissionDenied))
    ensures HasPermission(Gate(a), r) && r.Anonymous? ==> acc == Refused(ServerError)
    ensures r.Authenticated? && HasPermission(Gate(a), r) && id !in Visible(db, r.user) ==> acc == Refused(NotFound)
  {
    if !HasPermission(Gate(a), r) then Refused(Forbidden(PermissionDenied))
    else if r.Anonymous? then Refused(ServerError)
    else if id !in Visible(db, r.user) then Refused(NotFound)
    else if !HasObjectPermission(Gate(a), r, DonationOwner(db.donations[id])) then Refused(Forbidden(PermissionDenied))
    else Granted
  }

  // ---------------------------------------------------------------------
  // Handlers

  /**
   create: only a verified donor; the new row belongs to the caller and starts
   available, whatever read-only keys the body carries.
   */
  function CreateDonation(db: Db, r: Requester, now: nat, p: DonationPayload): (o: Outcome)
    ensures !IsVerifiedDonor(r) ==> o.response.Forbidden? && o.db == db
    ensures o.response != Forbidden(VerificationRequired)
    ensures !o.response.Created? ==> o.db == db
    ensures o.response.Created? ==>
      && o.response.id == db.nextId && r.Authenticated? && r.user.role == Donor && r.user.isVerified
      && db.nextId in o.db.donations && o.db.donations[db.nextId].donor == r.user.id
      && o.db.donations[db.nextId].status == Available
  {
    if !HasPermission(Gate(Create), r) then Outcome(Forbidden(PermissionDenied), db)
    else if !r.user.isVerified then Outcome(Forbidden(VerificationRequired), db)
    else
      var l := ApplyListing(db, p.listing, DefaultListing, false);
      if l.None? then Outcome(BadRequest(InvalidPayload), db)
      else Outcome(Created(db.nextId), db.(donations := db.donations[db.nextId := NewDonation(r.user.id, l.value, now)], nextId := db.nextId + 1))
  }

  /** A refused create changes nothing; the refusal for a wrong or unverified caller is 403. */
  lemma CreateRefusals(db: Db, r: Requester, now: nat, p: DonationPayload)
    ensures !IsVerifiedDonor(r) ==> CreateDonation(db, r, now, p) == Outcome(Forbidden(PermissionDenied), db)
    ensures IsVerifiedDonor(r) && ApplyListing(db, p.listing, DefaultListing, false).None? ==>
      CreateDonation(db, r, now, p) == Outcome(BadRequest(InvalidPayload), db)
  {
  }

  /** A create by a verified donor succeeds exactly when the listing validates. */
  lemma CreateSucceedsIff(db: Db, r: Requester, now: nat, p: DonationPayload)
    ensures CreateDonation(db, r, now, p).response.Created? <==>
      IsVerifiedDonor(r) && ApplyListing(db, p.listing, DefaultListing, false).Some?
  {
    assert HasPermission(Gate(Create), r) <==> IsVerifiedDonor(r);
  }

  /** A successful create adds exactly one row, at the next id, built from the validated listing. */
  lemma CreatedRow(db: Db, r: Requester, now: nat, p: DonationPayload)
    requires CreateDonation(db, r, now, p).response.Created?
    ensures var o := CreateDonation(db, r, now, p);
      o.db == db.(donations := db.donations[db.nextId := NewDonation(r.user.id, ApplyListing(db, p.listing, DefaultListing, false).value, now)],
                  nextId := db.nextId + 1)
  {
  }

  /**
   `category` may be left out of a create: the result is the same as sending it as
   null, and a created donation then has no category.
   */
  lemma CategoryOptionalOnCreate(db: Db, r: Requester, now: nat, p: DonationPayload)
    requires p.listing.category.None?
    ensures CreateDonation(db, r, now, p) == CreateDonation(db, r, now, p.(listing := p.listing.(category := Some(None))))
    ensures var o := CreateDonation(db, r, now, p);
      o.response.Created? ==> o.db.donations[db.nextId].listing.category.None?
  {
  }

  /** The read-only keys of a create body (donor, charity, status, timestamps) have no effect. */
  lemma CreateIgnoresReadOnly(db: Db, r: Requester, now: nat, p: DonationPayload, q: DonationPayload)
    requires p.listing == q.listing
    ensures CreateDonation(db, r, now, p) == CreateDonation(db, r, now, q)
  {
  }

  /**
   update / partial_update: the owner or an admin rewrites the listing; donor, charity,
   status and the claim and receipt times never change, even for an admin.
   */
  function UpdateDonation(db: Db, r: Requester, now: nat, id: DonationId, p: DonationPayload, partial: bool): (o: Outcome)
    ensures o.db.donations.Keys == db.donations.Keys && o.db.(donations := db.donations) == db
    ensures forall k :: k in db.donations ==>
      var d, d' := db.donations[k], o.db.donations[k];
      && d'.donor == d.donor && d'.charity == d.charity && d'.status == d.status
      && d'.claimedAt == d.claimedAt && d'.receivedAt == d.receivedAt && d'.createdAt == d.createdAt
    ensures forall k :: k in db.donations && k != id ==> o.db.donations[k] == db.donations[k]
    ensures o.response.Ok? <==>
      && DetailAccess(db, r, if partial then PartialUpdate else Update, id).Granted?
      && ApplyListing(db, p.listing, db.donations[id].listing, partial).Some?
    ensures !o.response.Ok? ==> o.db == db
    ensures r.Anonymous? ==> o.response == ServerError
    ensures r.Authenticated? && r.user.role != Admin && id in db.donations && db.donations[id].donor != r.user.id ==> !o.response.Ok?
  {
    match DetailAccess(db, r, if partial then PartialUpdate else Update, id)
    case Refused(resp) => Outcome(resp, db)
    case Granted =>
      var d := db.donations[id];
      match ApplyListing(db, p.listing, d.listing, partial)
      case None => Outcome(BadRequest(InvalidPayload), db)
      case Some(l) => Outcome(Ok, db.(donations := db.donations[id := d.(listing := l, updatedAt := now)]))
  }

  /** destroy: the owner or an admin deletes the donation and, by cascade, its claims. */
  function DestroyDonation(db: Db, r: Requester, id: DonationId): (o: Outcome)
    ensures o.response == NoContent <==> DetailAccess(db, r, Destroy, id).Granted?
    ensures o.response == NoContent ==> o.db == DeleteDonation(db, id)
    ensures o.response != NoContent ==> o.db == db
    ensures r.Authenticated? && r.user.role == Admin && id in db.donations ==> o.response == NoContent
    ensures r.Authenticated? && r.user.role == Donor && id in db.donations ==>
      (o.response == NoContent <==> db.donations[id].donor == r.user.id)
  {
    match DetailAccess(db, r, Destroy, id)
    case Refused(resp) => Outcome(resp, db)
    case Granted => Outcome(NoContent, DeleteDonation(db, id))
  }

  /** retrieve: any authenticated caller, for donations in its queryset. */
  function RetrieveDonation(db: Db, r: Requester, id: DonationId): (resp: Response)
    ensures resp == Ok <==> r.Authenticated? && id in Visible(db, r.user)
    ensures r.Anonymous? ==> resp == Forbidden(PermissionDenied)
  {
    match DetailAccess(db, r, Retrieve, id)
    case Refused(resp) => resp
    case Granted => Ok
  }

  /**
   claim: a verified charity claims an available donation. One claim row is
   inserted for (donation, caller), and the donation becomes claimed by the
   caller now. A donation that is not available is refused with 400 when the
   caller can see it (it holds it) and 404 otherwise; nothing changes.
   */
  function ClaimDonation(db: Db, r: Requester, now: nat, id: DonationId, p: ClaimPayload): (o: Outcome)
    ensures o.response.Created? <==>
      && IsVerifiedCharity(r) && id in db.donations && db.donations[id].status == Available
      && ClaimPayloadValid(db, p, now) && !PairTaken(db.claims, ClaimRow(r.user.id, id, p, now))
    ensures !IsVerifiedCharity(r) ==> o == Outcome(Forbidden(PermissionDenied), db)
    ensures o.response != Forbidden(VerificationRequired)
    ensures IsVerifiedCharity(r) && id in db.donations && db.donations[id].status != Available ==>
      && o.db == db
      && (o.response == BadRequest(NotAvailable) <==> db.donations[id].charity == Some(r.user.id))
      && (o.response == NotFound <==> db.donations[id].charity != Some(r.user.id))
    ensures o.response.BadRequest? || o.response.Forbidden? || o.response.NotFound? ==> o.db == db
    ensures o.response.Created? ==>
      && o.response.id == db.nextId && o.db.nextId == db.nextId + 1
      && o.db.donations == db.donations[id := ClaimedBy(db.donations[id], r.user.id, now)]
      && o.db.claims == db.claims[db.nextId := ClaimRow(r.user.id, id, p, now)]
    ensures o.response == ServerError ==>
      && id in db.donations && PairTaken(db.claims, ClaimRow(r.user.id, id, p, now)) && o.db.claims == db.claims
      && o.db.donations == db.donations[id := ClaimedBy(db.donations[id], r.user.id, now)]
    ensures o.db.users == db.users && o.db.wasteLogs == db.wasteLogs && o.db.reductions == db.reductions
    ensures o.db.foodCategories == db.foodCategories
  {
    if !HasPermission(Gate(ClaimAction), r) then Outcome(Forbidden(PermissionDenied), db)
    else if !r.user.isVerified then Outcome(Forbidden(VerificationRequired), db)
    else if id !in Visible(db, r.user) then Outcome(NotFound, db)
    else if db.donations[id].status != Available then Outcome(BadRequest(NotAvailable), db)
    else if !ClaimPayloadValid(db, p, now) then Outcome(BadRequest(InvalidPayload), db)
    else
      var saved := SaveClaim(db, r.user.id, id, p, now);
      if saved.response.Created? then
        RepeatedClaimWrite(db.donations[id], r.user.id, now, now);
        Outcome(saved.response, saved.db.(donations := saved.db.donations[id := ClaimedBy(saved.db.donations[id], r.user.id, now)]))
      else saved
  }

  /** Every claim on `id` by `charity` marked received now; no such claim leaves the map as it is. */
  function FlipClaims(claims: map<ClaimId, Claim>, id: DonationId, charity: UserId, now: nat): (cs: map<ClaimId, Claim>)
    ensures cs.Keys == claims.Keys
    ensures forall k :: k in claims ==>
      cs[k] == if claims[k].donation == id && claims[k].charity == charity then ClaimReceived(claims[k], now) else claims[k]
    ensures (forall k :: k in claims ==> !(claims[k].donation == id && claims[k].charity == charity)) ==> cs == claims
  {
    map k | k in claims :: if claims[k].donation == id && claims[k].charity == charity then ClaimReceived(claims[k], now) else claims[k]
  }

  /**
   mark_received: the verified charity holding a claimed donation marks it received
   now, and the matching claim too when there is one (a missing claim is ignored).
   */
  function MarkReceived(db: Db, r: Requester, now: nat, id: DonationId): (o: Outcome)
    ensures o.response == Ok <==>
      IsVerifiedCharity(r) && id in db.donations && db.donations[id].status == Claimed && db.donations[id].charity == Some(r.user.id)
    ensures o.response == Ok ==>
      && o.db == db.(donations := db.donations[id := ReceivedAt(db.donations[id], now)],
                     claims := FlipClaims(db.claims, id, r.user.id, now))
    ensures o.response != Ok ==> o.db == db
    ensures IsVerifiedCharity(r) && id in db.donations && db.donations[id].charity == Some(r.user.id) && db.donations[id].status != Claimed ==>
      o.response == BadRequest(CannotMarkReceived)
  {
    if !HasPermission(Gate(MarkReceivedAction), r) then Outcome(Forbidden(PermissionDenied), db)
    else if id !in Visible(db, r.user) then Outcome(NotFound, db)
    else
      var d := db.donations[id];
      if d.status != Claimed || d.charity != Some(r.user.id) then Outcome(BadRequest(CannotMarkReceived), db)
      else Outcome(Ok, db.(donations := db.donations[id := ReceivedAt(d, now)], claims := FlipClaims(db.claims, id, r.user.id, now)))
  }

  // ---------------------------------------------------------------------
  // Read-only actions

  /** A listing response: the ids it returns (empty when refused). */
  datatype Listed = Listed(response: Response, ids: set<DonationId>)

  /** my_donations: the donations whose donor is the caller, for any authenticated role. */
  function MyDonations(db: Db, r: Requester): (l: Listed)
    ensures l.response == Ok <==> r.Authenticated?
    ensures r.Anonymous? ==> l == Listed(Forbidden(PermissionDenied), {})
    ensures r.Authenticated? ==> forall k :: k in l.ids <==> k in db.donations && db.donations[k].donor == r.user.id
  {
    if !HasPermission(Gate(MyDonationsAction), r) then Listed(Forbidden(PermissionDenied), {})
    else Listed(Ok, set k | k in db.donations && db.donations[k].donor == r.user.id)
  }

  /** available: every available donation, whoever the (authenticated) caller is. */
  function AvailableList(db: Db, r: Requester): (l: Listed)
    ensures l.response == Ok <==> r.Authenticated?
    ensures r.Anonymous? ==> l == Listed(Forbidden(PermissionDenied), {})
    ensures r.Authenticated? ==> forall k :: k in l.ids <==> k in db.donations && db.donations[k].status == Available
  {
    if !HasPermission(Gate(AvailableAction), r) then Listed(Forbidden(PermissionDenied), {})
    else Listed(Ok, set k | k in db.donations && db.donations[k].status == Available)
  }

  /** claimed: the donations whose charity is the caller, whatever their status. */
  function ClaimedList(db: Db, r: Requester): (l: Listed)
    ensures l.response == Ok <==> r.Authenticated?
    ensures r.Anonymous? ==> l == Listed(Forbidden(PermissionDenied), {})
    ensures r.Authenticated? ==> forall k :: k in l.ids <==> k in db.donations && db.donations[k].charity == Some(r.user.id)
  {
    if !HasPermission(Gate(ClaimedAction), r) then Listed(Forbidden(PermissionDenied), {})
    else Listed(Ok, set k | k in db.donations && db.donations[k].charity == Some(r.user.id))
  }

  /** list: the caller's queryset, newest-created first. */
  method ListDonations(db: Db, r: Requester) returns (resp: Response, ids: seq<DonationId>)
    ensures resp == Ok <==> r.Authenticated?
    ensures r.Authenticated? ==> (forall k :: k in ids <==> k in Visible(db, r.user)) && Ordering.Distinct(ids)
    ensures forall i :: 0 <= i < |ids| ==> ids[i] in db.donations
    ensures forall i, j :: 0 <= i < j < |ids| ==> db.donations[ids[i]].createdAt >= db.donations[ids[j]].createdAt
    ensures r.Anonymous? ==> ids == []
  {
    if !HasPermission(Gate(List), r) {
      return Forbidden(PermissionDenied), [];
    }
    var visible := Visible(db, r.user);
    var key := map k | k in visible :: db.donations[k].createdAt as int;
    ids := Ordering.SortDescending(visible, key);
    resp := Ok;
  }

  // ---------------------------------------------------------------------
  // Food categories

  /**
   `FoodCategoryViewSet` destroy: an admin deletes a category; the donations in
   it keep their rows and lose their category (`SET_NULL`).
   */
  function DestroyFoodCategory(db: Db, r: Requester, cid: CategoryId): (o: Outcome)
    ensures o.response == NoContent <==> IsAdmin(r) && cid in db.foodCategories
    ensures !HasPermission(CategoryGate(DestroyCategory), r) ==> o == Outcome(Forbidden(PermissionDenied), db)
    ensures IsAdmin(r) && cid !in db.foodCategories ==> o == Outcome(NotFound, db)
    ensures o.response == NoContent ==>
      && cid !in o.db.foodCategories && o.db.donations.Keys == db.donations.Keys
      && forall k :: k in db.donations && db.donations[k].listing.category == Some(cid) ==>
           o.db.donations[k].listing.category == None
    ensures o.response == NoContent ==> o.db == DeleteFoodCategory(db, cid)
  {
    if !HasPermission(CategoryGate(DestroyCategory), r) then Outcome(Forbidden(PermissionDenied), db)
    else if cid !in db.foodCategories then Outcome(NotFound, db)
    else Outcome(NoContent, DeleteFoodCategory(db, cid))
  }
}
