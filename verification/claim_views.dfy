/**
 `DonationClaimViewSet`: the claims endpoint. Its `get_permissions` table decides
 every action, including `mark_received`, whose decorator asks for a verified
 charity that is never consulted. Creating a claim here goes through
 `DonationClaimSerializer.create`, which writes the donation without looking at
 its status. Each handler that the source gets wrong has a corrected twin
 (`…Checked`) that the lifecycle model uses.
 */
module ClaimViews {
  import opened Wrappers
  import opened Users
  import opened Http
  import opened Permissions
  import opened DonationModels
  import opened Store
  import opened DonationSerializers
  import Ordering

  datatype ClaimAction =
    | ListClaims | RetrieveClaim | CreateClaim | UpdateClaim | PartialUpdateClaim | DestroyClaim
    | MarkClaimReceivedAction

  /** `get_permissions` of the claims endpoint. */
  function ClaimGate(a: ClaimAction): PermissionClass {
    match a
    case CreateClaim => IsVerifiedCharityClass
    case UpdateClaim | PartialUpdateClaim | DestroyClaim => IsOwnerOrAdminClass
    case _ => IsAuthenticatedClass
  }

  /** The class the `mark_received` decorator names. */
  function DeclaredClaimClasses(a: ClaimAction): Option<PermissionClass> {
    match a
    case MarkClaimReceivedAction => Some(IsVerifiedCharityClass)
    case _ => None
  }

  /**
   The claim-side mark_received admits every authenticated caller, among them the
   unverified charities and the donors its decorator would refuse.
   */
  lemma ClaimMarkReceivedGateIsAuthentication(u: User)
    ensures ClaimGate(MarkClaimReceivedAction) == IsAuthenticatedClass
    ensures HasPermission(ClaimGate(MarkClaimReceivedAction), Authenticated(u))
    ensures !HasPermission(ClaimGate(MarkClaimReceivedAction), Anonymous)
    ensures u.role != Charity || !u.isVerified ==>
      !HasPermission(DeclaredClaimClasses(MarkClaimReceivedAction).value, Authenticated(u))
  {
  }

  // ---------------------------------------------------------------------
  // get_queryset

  predicate ClaimVisibleTo(db: Db, c: Claim, u: User) {
    match u.role
    case Admin => true
    case Donor => c.donation in db.donations && db.donations[c.donation].donor == u.id
    case Charity => c.charity == u.id
    case Unlisted => false
  }

  /** The claims `u` can see, and so the only ones a detail action of `u` can reach. */
  function VisibleClaims(db: Db, u: User): (ids: set<ClaimId>)
    ensures ids <= db.claims.Keys
    ensures u.role == Admin ==> ids == db.claims.Keys
    ensures u.role == Donor ==> forall k :: k in ids <==>
      k in db.claims && db.claims[k].donation in db.donations && db.donations[db.claims[k].donation].donor == u.id
    ensures u.role == Charity ==> forall k :: k in ids <==> k in db.claims && db.claims[k].charity == u.id
    ensures u.role == Unlisted ==> ids == {}
  {
    set k | k in db.claims && ClaimVisibleTo(db, db.claims[k], u)
  }

  /** View gate, queryset lookup (an exception for an anonymous caller) and object gate. */
  function ClaimDetailAccess(db: Db, r: Requester, a: ClaimAction, id: ClaimId): (acc: Access)
    ensures acc.Granted? <==>
      && HasPermission(ClaimGate(a), r) && r.Authenticated? && id in VisibleClaims(db, r.user)
      && HasObjectPermission(ClaimGate(a), r, ClaimOwner(db.claims[id]))
    ensures acc.Granted? ==> id in db.claims
    ensures !HasPermission(ClaimGate(a), r) ==> acc == Refused(Forbidden(PermissionDenied))
    ensures HasPermission(ClaimGate(a), r) && r.Anonymous? ==> acc == Refused(ServerError)
    ensures r.Authenticated? && HasPermission(ClaimGate(a), r) && id !in VisibleClaims(db, r.user) ==> acc == Refused(NotFound)
  {
    if !HasPermission(ClaimGate(a), r) then Refused(Forbidden(PermissionDenied))
    else if r.Anonymous? then Refused(ServerError)
    else if id !in VisibleClaims(db, r.user) then Refused(NotFound)
    else if !HasObjectPermission(ClaimGate(a), r, ClaimOwner(db.claims[id])) then Refused(Forbidden(PermissionDenied))
    else Granted
  }

  /** update, partial_update and destroy of a claim are open to admins only. */
  lemma ClaimEditsAdminOnly(db: Db, u: User, id: ClaimId)
    requires id in db.claims
    ensures ClaimDetailAccess(db, Authenticated(u), DestroyClaim, id).Granted? <==> u.role == Admin
    ensures ClaimDetailAccess(db, Authenticated(u), UpdateClaim, id).Granted? <==> u.role == Admin
  {
  }

  // ---------------------------------------------------------------------
  // create

  /**
   create, as written: a verified charity posts a body naming any existing
   donation; the serializer writes that donation as claimed by the caller, whatever
   its status, then inserts the claim. A repeated (donation, charity) pair fails in
   the database after the donation write.
   */
  function CreateClaimAsWritten(db: Db, r: Requester, now: nat, p: ClaimPayload): (o: Outcome)
    ensures !IsVerifiedCharity(r) ==> o == Outcome(Forbidden(PermissionDenied), db)
    ensures IsVerifiedCharity(r) && !ClaimPayloadValid(db, p, now) ==> o == Outcome(BadRequest(InvalidPayload), db)
    ensures IsVerifiedCharity(r) && ClaimPayloadValid(db, p, now) ==>
      && o.db.donations == db.donations[p.donation.value := ClaimedBy(db.donations[p.donation.value], r.user.id, now)]
      && (o.response.Created? <==> !PairTaken(db.claims, ClaimRow(r.user.id, p.donation.value, p, now)))
  {
    if !HasPermission(ClaimGate(CreateClaim), r) then Outcome(Forbidden(PermissionDenied), db)
    else if !ClaimPayloadValid(db, p, now) then Outcome(BadRequest(InvalidPayload), db)
    else SaveClaim(db, r.user.id, p.donation.value, p, now)
  }

  /**
   create, corrected: as above, but a donation that is not available is refused
   with 400 before anything is written, as the claim action of the donations
   endpoint does.
   */
  function CreateClaimChecked(db: Db, r: Requester, now: nat, p: ClaimPayload): (o: Outcome)
    ensures o.response.Created? <==>
      && IsVerifiedCharity(r) && ClaimPayloadValid(db, p, now)
      && db.donations[p.donation.value].status == Available
      && !PairTaken(db.claims, ClaimRow(r.user.id, p.donation.value, p, now))
    ensures o.response.Created? ==>
      && o.response.id == db.nextId && o.db.nextId == db.nextId + 1
      && o.db.donations == db.donations[p.donation.value := ClaimedBy(db.donations[p.donation.value], r.user.id, now)]
      && o.db.claims == db.claims[db.nextId := ClaimRow(r.user.id, p.donation.value, p, now)]
    ensures o.response.Forbidden? || o.response.BadRequest? ==> o.db == db
    ensures IsVerifiedCharity(r) && ClaimPayloadValid(db, p, now) && db.donations[p.donation.value].status != Available ==>
      o == Outcome(BadRequest(NotAvailable), db)
    ensures o.db.users == db.users && o.db.wasteLogs == db.wasteLogs && o.db.reductions == db.reductions
  {
    if !HasPermission(ClaimGate(CreateClaim), r) then Outcome(Forbidden(PermissionDenied), db)
    else if !ClaimPayloadValid(db, p, now) then Outcome(BadRequest(InvalidPayload), db)
    else if db.donations[p.donation.value].status != Available then Outcome(BadRequest(NotAvailable), db)
    else SaveClaim(db, r.user.id, p.donation.value, p, now)
  }

  /**
   Through the claims endpoint any verified charity can take back a donation that
   has already been received: whether the insert succeeds or fails, the donation
   ends up claimed again, by the caller, with a new claim time.
   */
  lemma ClaimEndpointRegressesReceived(db: Db, r: Requester, now: nat, p: ClaimPayload)
    requires IsVerifiedCharity(r) && ClaimPayloadValid(db, p, now)
    requires db.donations[p.donation.value].status == Received
    ensures var d' := CreateClaimAsWritten(db, r, now, p).db.donations[p.donation.value];
      d'.status == Claimed && d'.charity == Some(r.user.id) && d'.claimedAt == Some(now)
    ensures CreateClaimChecked(db, r, now, p) == Outcome(BadRequest(NotAvailable), db)
  {
  }

  // ---------------------------------------------------------------------
  // mark_received

  /**
   mark_received, as written: any authenticated caller who can see the claim and
   made it marks it received now, and the donation it points at received now,
   whatever that donation's status or charity. The claim is saved before the
   donation is read; a dangling reference fails after that write.
   */
  function MarkClaimReceived(db: Db, r: Requester, now: nat, id: ClaimId): (o: Outcome)
    ensures o.response == Ok <==>
      && r.Authenticated? && id in VisibleClaims(db, r.user) && db.claims[id].charity == r.user.id
      && db.claims[id].donation in db.donations
    ensures r.Authenticated? && r.user.role == Charity ==>
      (o.response == Ok <==> id in db.claims && db.claims[id].charity == r.user.id && db.claims[id].donation in db.donations)
    ensures o.response == Ok ==>
      var c := db.claims[id];
      o.db == db.(claims := db.claims[id := ClaimReceived(c, now)],
                  donations := db.donations[c.donation := ReceivedAt(db.donations[c.donation], now)])
    ensures r.Anonymous? ==> o == Outcome(Forbidden(PermissionDenied), db)
    ensures o.response != Ok && o.response != ServerError ==> o.db == db
  {
    match ClaimDetailAccess(db, r, MarkClaimReceivedAction, id)
    case Refused(resp) => Outcome(resp, db)
    case Granted =>
      var c := db.claims[id];
      if c.charity != r.user.id then Outcome(BadRequest(CannotMarkReceived), db)
      else
        var written := db.(claims := db.claims[id := ClaimReceived(c, now)]);
        if c.donation !in db.donations then Outcome(ServerError, written)
        else Outcome(Ok, written.(donations := db.donations[c.donation := ReceivedAt(db.donations[c.donation], now)]))
  }

  /**
   mark_received, corrected: the decorator's gate (a verified charity) applies, and,
   as on the donations endpoint, only a donation currently claimed by the caller
   can be marked received.
   */
  function MarkClaimReceivedChecked(db: Db, r: Requester, now: nat, id: ClaimId): (o: Outcome)
    ensures o.response == Ok <==>
      && IsVerifiedCharity(r) && id in db.claims && db.claims[id].charity == r.user.id
      && db.claims[id].donation in db.donations
      && db.donations[db.claims[id].donation].status == Claimed
      && db.donations[db.claims[id].donation].charity == Some(r.user.id)
    ensures o.response == Ok ==>
      var c := db.claims[id];
      o.db == db.(claims := db.claims[id := ClaimReceived(c, now)],
                  donations := db.donations[c.donation := ReceivedAt(db.donations[c.donation], now)])
    ensures o.response != Ok ==> o.db == db
    ensures !IsVerifiedCharity(r) ==> o.response == Forbidden(PermissionDenied)
  {
    if !IsVerifiedCharity(r) then Outcome(Forbidden(PermissionDenied), db)
    else if id !in VisibleClaims(db, r.user) then Outcome(NotFound, db)
    else
      var c := db.claims[id];
      if c.charity != r.user.id || c.donation !in db.donations then Outcome(BadRequest(CannotMarkReceived), db)
      else
        var d := db.donations[c.donation];
        if d.status != Claimed || d.charity != Some(r.user.id) then Outcome(BadRequest(CannotMarkReceived), db)
        else Outcome(Ok, db.(claims := db.claims[id := ClaimReceived(c, now)],
                             donations := db.donations[c.donation := ReceivedAt(d, now)]))
  }

  /** An unverified charity marks its own claim, and the donation, received; the corrected gate refuses it. */
  lemma UnverifiedCharityMarksReceived(db: Db, u: User, now: nat, id: ClaimId)
    requires u.role == Charity && !u.isVerified
    requires id in db.claims && db.claims[id].charity == u.id && db.claims[id].donation in db.donations
    ensures MarkClaimReceived(db, Authenticated(u), now, id).response == Ok
    ensures MarkClaimReceived(db, Authenticated(u), now, id).db.donations[db.claims[id].donation].status == Received
    ensures MarkClaimReceivedChecked(db, Authenticated(u), now, id) == Outcome(Forbidden(PermissionDenied), db)
  {
  }

  /**
   Marking an already received claim again moves both receipt times to the new
   time; the corrected handler refuses the repeat and keeps the first time.
   */
  lemma RemarkMovesReceivedAt(db: Db, u: User, first: nat, second: nat, id: ClaimId)
    requires u.role == Charity && u.isVerified
    requires id in db.claims && db.claims[id].charity == u.id && db.claims[id].donation in db.donations
    requires db.donations[db.claims[id].donation].status == Claimed
    requires db.donations[db.claims[id].donation].charity == Some(u.id)
    requires first != second
    ensures var once := MarkClaimReceived(db, Authenticated(u), first, id).db;
      var twice := MarkClaimReceived(once, Authenticated(u), second, id).db;
      && once.donations[db.claims[id].donation].receivedAt == Some(first)
      && twice.donations[db.claims[id].donation].receivedAt == Some(second)
      && twice.claims[id].receivedAt == Some(second)
    ensures var once := MarkClaimReceivedChecked(db, Authenticated(u), first, id);
      && once.response == Ok
      && MarkClaimReceivedChecked(once.db, Authenticated(u), second, id) == Outcome(BadRequest(CannotMarkReceived), once.db)
  {
    var c := db.claims[id];
    var once := MarkClaimReceived(db, Authenticated(u), first, id).db;
    assert once.claims[id].charity == u.id && once.claims[id].donation == c.donation;
  }

  // ---------------------------------------------------------------------
  // destroy, list

  /** destroy: an admin deletes the claim; the donation keeps its status and charity. */
  function DestroyClaimAction(db: Db, r: Requester, id: ClaimId): (o: Outcome)
    ensures o.response == NoContent <==> IsAdmin(r) && id in db.claims
    ensures o.response == NoContent ==> o.db == db.(claims := db.claims - {id})
    ensures o.response != NoContent ==> o.db == db
    ensures r.Anonymous? ==> o.response == ServerError
  {
    match ClaimDetailAccess(db, r, DestroyClaim, id)
    case Refused(resp) => Outcome(resp, db)
    case Granted => Outcome(NoContent, db.(claims := db.claims - {id}))
  }

  /** list: the caller's visible claims, newest-claimed first. */
  method ListClaimsAction(db: Db, r: Requester) returns (resp: Response, ids: seq<ClaimId>)
    ensures resp == Ok <==> r.Authenticated?
    ensures r.Authenticated? ==> (forall k :: k in ids <==> k in VisibleClaims(db, r.user)) && Ordering.Distinct(ids)
    ensures forall i :: 0 <= i < |ids| ==> ids[i] in db.claims
    ensures forall i, j :: 0 <= i < j < |ids| ==> db.claims[ids[i]].claimedAt >= db.claims[ids[j]].claimedAt
    ensures r.Anonymous? ==> ids == []
  {
    if !HasPermission(ClaimGate(ListClaims), r) {
      return Forbidden(PermissionDenied), [];
    }
    var visible := VisibleClaims(db, r.user);
    var key := map k | k in visible :: db.claims[k].claimedAt as int;
    ids := Ordering.SortDescending(visible, key);
    resp := Ok;
  }

  /** retrieve: any authenticated caller, for claims in its queryset. */
  function RetrieveClaimAction(db: Db, r: Requester, id: ClaimId): (resp: Response)
    ensures resp == Ok <==> r.Authenticated? && id in VisibleClaims(db, r.user)
    ensures r.Anonymous? ==> resp == Forbidden(PermissionDenied)
  {
    match ClaimDetailAccess(db, r, RetrieveClaim, id)
    case Refused(resp) => resp
    case Granted => Ok
  }
}
