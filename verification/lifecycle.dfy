/**
 The donation lifecycle `available → claimed → received` over sequences of
 requests. `Inv` is what every stored state reachable through the donations
 endpoint (and the corrected claims endpoint) satisfies; `Progress` says that a
 request never moves a donation backwards or rewrites a time it already holds.
 The as-written claims endpoint and the user cascade break them; the lemmas at
 the end exhibit how.
 */
module Lifecycle {
  import opened Wrappers
  import opened Users
  import opened Calendar
  import opened Http
  import opened Permissions
  import opened DonationModels
  import opened Store
  import opened DonationSerializers
  import opened DonationViews
  import opened ClaimViews

  // ---------------------------------------------------------------------
  // The invariant

  /** The read-only attributes agree with the status. */
  predicate WellFormed(d: Donation) {
    && (d.status == Available ==> d.charity.None? && d.claimedAt.None? && d.receivedAt.None?)
    && (d.status == Claimed ==> d.charity.Some? && d.claimedAt.Some? && d.receivedAt.None?)
    && (d.status == Received ==> d.charity.Some? && d.claimedAt.Some? && d.receivedAt.Some?)
  }

  /**
   A claim points at a stored donation that is held by the claiming charity, and it
   is marked received exactly when the donation is.
   */
  predicate ClaimConsistent(donations: map<DonationId, Donation>, c: Claim) {
    && c.donation in donations
    && (donations[c.donation].status == Claimed || donations[c.donation].status == Received)
    && donations[c.donation].charity == Some(c.charity)
    && (c.isReceived <==> donations[c.donation].status == Received)
    && (c.receivedAt.Some? <==> c.isReceived)
  }

  predicate Inv(db: Db) {
    && KeysBelowNext(db)
    && (forall k :: k in db.donations ==> WellFormed(db.donations[k]))
    && (forall k :: k in db.claims ==> ClaimConsistent(db.donations, db.claims[k]))
    && UniqueTogether(db.claims)
  }

  /** The position of a status on the path `available → claimed → received`. */
  function Rank(s: Status): nat {
    match s
    case Available => 0
    case Claimed => 1
    case Received => 2
    case Expired => 3
  }

  /** `d'` is `d` later: not further back, same donor, and no set field rewritten. */
  predicate NoRegress(d: Donation, d': Donation) {
    && Rank(d.status) <= Rank(d'.status)
    && d'.donor == d.donor && d'.createdAt == d.createdAt
    && (d.charity.Some? ==> d'.charity == d.charity)
    && (d.claimedAt.Some? ==> d'.claimedAt == d.claimedAt)
    && (d.receivedAt.Some? ==> d'.receivedAt == d.receivedAt)
  }

  /**
   Every donation present before and after has not regressed, and the only new
   donations carry keys not handed out before.
   */
  predicate Progress(db: Db, db': Db) {
    && db.nextId <= db'.nextId
    && (forall k :: k in db'.donations && k !in db.donations ==> db.nextId <= k)
    && (forall k :: k in db.donations && k in db'.donations ==> NoRegress(db.donations[k], db'.donations[k]))
  }

  lemma {:induction false} ProgressTransitive(a: Db, b: Db, c: Db)
    requires KeysBelowNext(a) && Progress(a, b) && Progress(b, c)
    ensures Progress(a, c)
  {
    forall k | k in a.donations && k in c.donations
      ensures NoRegress(a.donations[k], c.donations[k])
    {
      assert k < a.nextId;
      assert k in b.donations;
      assert NoRegress(a.donations[k], b.donations[k]);
      assert NoRegress(b.donations[k], c.donations[k]);
    }
    forall k | k in c.donations && k !in a.donations
      ensures a.nextId <= k
    {
      if k in b.donations {
      } else {
        assert b.nextId <= k;
      }
    }
  }

  /** Under the invariant a donation carries at most one claim: the one of its holder. */
  lemma OneClaimPerDonation(db: Db, a: ClaimId, b: ClaimId)
    requires Inv(db) && a in db.claims && b in db.claims
    requires db.claims[a].donation == db.claims[b].donation
    ensures a == b
  {
    assert ClaimConsistent(db.donations, db.claims[a]);
    assert ClaimConsistent(db.donations, db.claims[b]);
  }

  // ---------------------------------------------------------------------
  // Requests

  /** The requests of the lifecycle: the donations endpoint and the corrected claims endpoint. */
  datatype Op =
    | CreateOp(payload: DonationPayload)
    | UpdateOp(id: DonationId, payload: DonationPayload, partial: bool)
    | DestroyOp(id: DonationId)
    | ClaimOp(id: DonationId, claim: ClaimPayload)
    | MarkReceivedOp(id: DonationId)
    | CreateClaimOp(claim: ClaimPayload)
    | MarkClaimReceivedOp(claimId: ClaimId)
    | DestroyClaimOp(claimId: ClaimId)

  /** A request: when it arrives, who sends it, and what it asks for. */
  datatype Event = Event(now: nat, caller: Requester, op: Op)

  function Step(db: Db, e: Event): Outcome {
    match e.op
    case CreateOp(p) => CreateDonation(db, e.caller, e.now, p)
    case UpdateOp(id, p, partial) => UpdateDonation(db, e.caller, e.now, id, p, partial)
    case DestroyOp(id) => DestroyDonation(db, e.caller, id)
    case ClaimOp(id, p) => ClaimDonation(db, e.caller, e.now, id, p)
    case MarkReceivedOp(id) => MarkReceived(db, e.caller, e.now, id)
    case CreateClaimOp(p) => CreateClaimChecked(db, e.caller, e.now, p)
    case MarkClaimReceivedOp(id) => MarkClaimReceivedChecked(db, e.caller, e.now, id)
    case DestroyClaimOp(id) => DestroyClaimAction(db, e.caller, id)
  }

  /** The database after serving `es` in order. */
  function Run(db: Db, es: seq<Event>): Db
    decreases |es|
  {
    if es == [] then db else Run(Step(db, es[0]).db, es[1..])
  }

  // ---------------------------------------------------------------------
  // One request at a time

  lemma CreatePreserves(db: Db, r: Requester, now: nat, p: DonationPayload)
    requires Inv(db)
    ensures Inv(CreateDonation(db, r, now, p).db) && Progress(db, CreateDonation(db, r, now, p).db)
  {
    var o := CreateDonation(db, r, now, p);
    if o.response.Created? {
      CreatedRow(db, r, now, p);
      assert forall k :: k in db.donations ==> o.db.donations[k] == db.donations[k];
    }
  }

  lemma UpdatePreserves(db: Db, r: Requester, now: nat, id: DonationId, p: DonationPayload, partial: bool)
    requires Inv(db)
    ensures Inv(UpdateDonation(db, r, now, id, p, partial).db)
    ensures Progress(db, UpdateDonation(db, r, now, id, p, partial).db)
  {
    var o := UpdateDonation(db, r, now, id, p, partial);
    assert o.db.claims == db.claims;
    forall k | k in o.db.claims
      ensures ClaimConsistent(o.db.donations, o.db.claims[k])
    {
      assert ClaimConsistent(db.donations, db.claims[k]);
    }
    forall k | k in o.db.donations
      ensures WellFormed(o.db.donations[k])
    {
      assert WellFormed(db.donations[k]);
    }
  }

  lemma DestroyPreserves(db: Db, r: Requester, id: DonationId)
    requires Inv(db)
    ensures Inv(DestroyDonation(db, r, id).db) && Progress(db, DestroyDonation(db, r, id).db)
  {
    var o := DestroyDonation(db, r, id);
    if o.response == NoContent {
      forall k | k in o.db.claims
        ensures ClaimConsistent(o.db.donations, o.db.claims[k])
      {
        assert ClaimConsistent(db.donations, db.claims[k]);
      }
    }
  }

  lemma ClaimPreserves(db: Db, r: Requester, now: nat, id: DonationId, p: ClaimPayload)
    requires Inv(db)
    ensures Inv(ClaimDonation(db, r, now, id, p).db) && Progress(db, ClaimDonation(db, r, now, id, p).db)
  {
    var o := ClaimDonation(db, r, now, id, p);
    if o.response.Created? || o.response == ServerError {
      var d := db.donations[id];
      assert d.status == Available;
      assert WellFormed(d);
      forall k | k in db.claims
        ensures db.claims[k].donation != id
      {
        assert ClaimConsistent(db.donations, db.claims[k]);
      }
      ClaimStepKeeps(db, o.db, id, r.user.id, now, if o.response.Created? then Some(ClaimRow(r.user.id, id, p, now)) else None);
    }
  }

  /**
   The shared part of the two claim paths: an available donation `id` with no claim
   becomes claimed by `charity`, and at most one claim on it, by `charity` and not
   received, is added.
   */
  lemma ClaimStepKeeps(db: Db, db': Db, id: DonationId, charity: UserId, now: nat, added: Option<Claim>)
    requires Inv(db) && id in db.donations && db.donations[id].status == Available
    requires forall k :: k in db.claims ==> db.claims[k].donation != id
    requires db'.donations == db.donations[id := ClaimedBy(db.donations[id], charity, now)]
    requires db'.users == db.users && db'.wasteLogs == db.wasteLogs && db'.reductions == db.reductions
    requires added.None? ==> db'.claims == db.claims && db'.nextId == db.nextId
    requires added.Some? ==>
      && added.value.donation == id && added.value.charity == charity
      && !added.value.isReceived && added.value.receivedAt.None?
      && db'.claims == db.claims[db.nextId := added.value] && db'.nextId == db.nextId + 1
    ensures Inv(db') && Progress(db, db')
  {
    assert WellFormed(db.donations[id]);
    forall k | k in db'.claims
      ensures ClaimConsistent(db'.donations, db'.claims[k])
    {
      if k in db.claims && db'.claims[k] == db.claims[k] {
        assert ClaimConsistent(db.donations, db.claims[k]);
      }
    }
    forall a, b | a in db'.claims && b in db'.claims && a != b
      ensures db'.claims[a].donation != db'.claims[b].donation || db'.claims[a].charity != db'.claims[b].charity
    {
      if a in db.claims && b in db.claims && db'.claims[a] == db.claims[a] && db'.claims[b] == db.claims[b] {
      }
    }
  }

  lemma MarkReceivedPreserves(db: Db, r: Requester, now: nat, id: DonationId)
    requires Inv(db)
    ensures Inv(MarkReceived(db, r, now, id).db) && Progress(db, MarkReceived(db, r, now, id).db)
  {
    var o := MarkReceived(db, r, now, id);
    if o.response == Ok {
      assert WellFormed(db.donations[id]);
      forall k | k in o.db.claims
        ensures ClaimConsistent(o.db.donations, o.db.claims[k])
      {
        assert ClaimConsistent(db.donations, db.claims[k]);
      }
    }
  }

  lemma CreateClaimPreserves(db: Db, r: Requester, now: nat, p: ClaimPayload)
    requires Inv(db)
    ensures Inv(CreateClaimChecked(db, r, now, p).db) && Progress(db, CreateClaimChecked(db, r, now, p).db)
  {
    var o := CreateClaimChecked(db, r, now, p);
    if !(o.response.Forbidden? || o.response.BadRequest?) {
      var id := p.donation.value;
      assert db.donations[id].status == Available;
      forall k | k in db.claims
        ensures db.claims[k].donation != id
      {
        assert ClaimConsistent(db.donations, db.claims[k]);
      }
      assert o.db == SaveClaim(db, r.user.id, id, p, now).db;
      ClaimStepKeeps(db, o.db, id, r.user.id, now, if o.response.Created? then Some(ClaimRow(r.user.id, id, p, now)) else None);
    }
  }

  lemma MarkClaimReceivedPreserves(db: Db, r: Requester, now: nat, id: ClaimId)
    requires Inv(db)
    ensures Inv(MarkClaimReceivedChecked(db, r, now, id).db)
    ensures Progress(db, MarkClaimReceivedChecked(db, r, now, id).db)
  {
    var o := MarkClaimReceivedChecked(db, r, now, id);
    if o.response == Ok {
      var c := db.claims[id];
      assert WellFormed(db.donations[c.donation]);
      forall k | k in o.db.claims
        ensures ClaimConsistent(o.db.donations, o.db.claims[k])
      {
        assert ClaimConsistent(db.donations, db.claims[k]);
        if db.claims[k].donation == c.donation {
          OneClaimPerDonation(db, k, id);
        }
      }
    }
  }

  lemma DestroyClaimPreserves(db: Db, r: Requester, id: ClaimId)
    requires Inv(db)
    ensures Inv(DestroyClaimAction(db, r, id).db) && Progress(db, DestroyClaimAction(db, r, id).db)
  {
  }

  /** Every request keeps the invariant and makes progress. */
  lemma StepPreserves(db: Db, e: Event)
    requires Inv(db)
    ensures Inv(Step(db, e).db) && Progress(db, Step(db, e).db)
  {
    match e.op
    case CreateOp(p) => CreatePreserves(db, e.caller, e.now, p);
    case UpdateOp(id, p, partial) => UpdatePreserves(db, e.caller, e.now, id, p, partial);
    case DestroyOp(id) => DestroyPreserves(db, e.caller, id);
    case ClaimOp(id, p) => ClaimPreserves(db, e.caller, e.now, id, p);
    case MarkReceivedOp(id) => MarkReceivedPreserves(db, e.caller, e.now, id);
    case CreateClaimOp(p) => CreateClaimPreserves(db, e.caller, e.now, p);
    case MarkClaimReceivedOp(id) => MarkClaimReceivedPreserves(db, e.caller, e.now, id);
    case DestroyClaimOp(id) => DestroyClaimPreserves(db, e.caller, id);
  }

  /**
   Over any sequence of requests the invariant holds and no donation that is still
   stored has gone backwards, changed donor, or had a set time rewritten.
   */
  lemma {:induction false} RunPreserves(db: Db, es: seq<Event>)
    requires Inv(db)
    ensures Inv(Run(db, es)) && Progress(db, Run(db, es))
    decreases |es|
  {
    if es != [] {
      var next := Step(db, es[0]).db;
      StepPreserves(db, es[0]);
      RunPreserves(next, es[1..]);
      var last := Run(next, es[1..]);
      assert last == Run(db, es);
      ProgressTransitive(db, next, last);
    }
  }

  // ---------------------------------------------------------------------
  // What the invariant rules out, and what breaks it

  /** The empty database satisfies the invariant. */
  lemma EmptyInv(nextId: nat)
    ensures Inv(Db(map[], map[], map[], map[], map[], map[], map[], nextId))
  {
  }

  /**
   Claiming through the as-written claims endpoint moves a received donation back
   to claimed, and its claim time, so `Progress` fails for every such request.
   */
  lemma ClaimEndpointBreaksProgress(db: Db, r: Requester, now: nat, p: ClaimPayload)
    requires Inv(db) && IsVerifiedCharity(r) && ClaimPayloadValid(db, p, now)
    requires db.donations[p.donation.value].status == Received
    ensures !Progress(db, CreateClaimAsWritten(db, r, now, p).db)
  {
    var id := p.donation.value;
    ClaimEndpointRegressesReceived(db, r, now, p);
    assert !NoRegress(db.donations[id], CreateClaimAsWritten(db, r, now, p).db.donations[id]);
  }

  /**
   Marking a received claim again through the as-written claims endpoint rewrites
   the donation's receipt time, so `Progress` fails.
   */
  lemma RemarkBreaksProgress(db: Db, u: User, now: nat, id: ClaimId)
    requires Inv(db) && u.role == Charity && id in db.claims && db.claims[id].charity == u.id
    requires db.donations[db.claims[id].donation].status == Received
    requires db.donations[db.claims[id].donation].receivedAt != Some(now)
    ensures MarkClaimReceived(db, Authenticated(u), now, id).response == Ok
    ensures !Progress(db, MarkClaimReceived(db, Authenticated(u), now, id).db)
  {
    var c := db.claims[id];
    assert ClaimConsistent(db.donations, c);
    var d' := MarkClaimReceived(db, Authenticated(u), now, id).db.donations[c.donation];
    assert !NoRegress(db.donations[c.donation], d');
  }

  /**
   Deleting the charity that holds a claimed donation leaves the donation claimed
   with no charity (`SET_NULL` keeps the status), which the invariant rules out.
   */
  lemma DeleteHolderBreaksInv(db: Db, uid: UserId, k: DonationId)
    requires Inv(db) && k in db.donations
    requires db.donations[k].status == Claimed && db.donations[k].charity == Some(uid) && db.donations[k].donor != uid
    ensures !Inv(DeleteUser(db, uid))
  {
    var db' := DeleteUser(db, uid);
    assert k in db'.donations;
    assert !WellFormed(db'.donations[k]);
  }

  /**
   After an admin deletes the claim of a claimed donation, its holder can still mark
   it received on the donations endpoint: the missing claim is silently skipped and
   the claims stay as they are.
   */
  lemma MarkReceivedWithoutClaim(db: Db, admin: User, holder: User, now: nat, id: ClaimId)
    requires Inv(db) && admin.role == Admin && id in db.claims
    requires holder.role == Charity && holder.isVerified && holder.id == db.claims[id].charity
    requires db.donations[db.claims[id].donation].status == Claimed
    ensures var db1 := DestroyClaimAction(db, Authenticated(admin), id).db;
      && MarkReceived(db1, Authenticated(holder), now, db.claims[id].donation).response == Ok
      && MarkReceived(db1, Authenticated(holder), now, db.claims[id].donation).db.claims == db1.claims
      && forall k :: k in db1.claims ==> db1.claims[k].donation != db.claims[id].donation
  {
    var c := db.claims[id];
    assert ClaimConsistent(db.donations, c);
    var db1 := DestroyClaimAction(db, Authenticated(admin), id).db;
    forall k | k in db1.claims
      ensures db1.claims[k].donation != c.donation
    {
      if db1.claims[k].donation == c.donation {
        OneClaimPerDonation(db, k, id);
      }
    }
  }
}
