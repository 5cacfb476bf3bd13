/**
 The database: every table of the core as a map from primary key to row, plus one
 counter standing for the auto-increment sequences. Deleting a row applies the
 `on_delete` rule of every foreign key that points at it.
 */
module Store {
  import opened Wrappers
  import opened Users
  import opened Http
  import opened Permissions
  import opened DonationModels
  import WM = WasteModels

  datatype Db = Db(
    users: map<UserId, User>,
    foodCategories: map<CategoryId, string>,
    wasteCategories: map<CategoryId, string>,
    donations: map<DonationId, Donation>,
    claims: map<ClaimId, Claim>,
    wasteLogs: map<WM.LogId, WM.WasteLog>,
    reductions: map<WM.ReductionId, WM.WasteReduction>,
    nextId: nat)

  /** What a request handler returns: the response and the database after it. */
  datatype Outcome = Outcome(response: Response, db: Db)

  /** The checks a detail action runs before its body: go ahead, or answer with `response`. */
  datatype Access = Granted | Refused(response: Response)

  /** Every stored key is below the counter, so `nextId` is never a stored key. */
  predicate KeysBelowNext(db: Db) {
    && (forall k :: k in db.donations ==> k < db.nextId)
    && (forall k :: k in db.claims ==> k < db.nextId)
    && (forall k :: k in db.wasteLogs ==> k < db.nextId)
    && (forall k :: k in db.reductions ==> k < db.nextId)
    && (forall k :: k in db.users ==> k < db.nextId)
  }

  /**
   The requester is anonymous or is the stored row of its user: authentication
   loads `request.user` from the user table.
   */
  predicate SignedIn(db: Db, r: Requester) {
    r.Anonymous? || (r.user.id in db.users && db.users[r.user.id] == r.user)
  }

  // ---------------------------------------------------------------------
  // The owner attributes `IsOwnerOrAdmin` finds on each kind of row

  /** A donation has a `donor` attribute and no `user` attribute. */
  function DonationOwner(d: Donation): OwnerFields {
    OwnerFields(None, Some(d.donor))
  }

  /** A claim is owned through `charity`, which `IsOwnerOrAdmin` does not look at. */
  function ClaimOwner(c: Claim): OwnerFields {
    OwnerFields(None, None)
  }

  function WasteLogOwner(l: WM.WasteLog): OwnerFields {
    OwnerFields(Some(l.user), None)
  }

  function ReductionOwner(w: WM.WasteReduction): OwnerFields {
    OwnerFields(Some(w.user), None)
  }

  /** A user row has neither a `user` nor a `donor` attribute. */
  function UserOwner(u: User): OwnerFields {
    OwnerFields(None, None)
  }

  /** Only an admin may edit or delete a claim, even the charity that made it. */
  lemma ClaimOwnedByAdminOnly(r: Requester, c: Claim)
    ensures IsOwnerOrAdmin(r, ClaimOwner(c)) <==> IsAdmin(r)
  {
  }

  /** A non-admin owns exactly the waste logs whose `user` it is. */
  lemma WasteLogOwnedByUser(u: User, l: WM.WasteLog)
    requires u.role != Admin
    ensures IsOwnerOrAdmin(Authenticated(u), WasteLogOwner(l)) <==> l.user == u.id
  {
  }

  // ---------------------------------------------------------------------
  // Deletions and their cascades

  /** Deleting a donation deletes every claim on it (`CASCADE`). */
  function DeleteDonation(db: Db, id: DonationId): (db': Db)
    ensures db'.donations == db.donations - {id}
    ensures forall k :: k in db'.claims <==> k in db.claims && db.claims[k].donation != id
    ensures forall k :: k in db'.claims ==> db'.claims[k] == db.claims[k]
    ensures db'.users == db.users && db'.wasteLogs == db.wasteLogs && db'.reductions == db.reductions
    ensures db'.foodCategories == db.foodCategories && db'.wasteCategories == db.wasteCategories
    ensures db'.nextId == db.nextId
  {
    db.(donations := db.donations - {id},
        claims := map k | k in db.claims && db.claims[k].donation != id :: db.claims[k])
  }

  /**
   Deleting a user: its donations go (and their claims), its claims go, its waste
   rows go (`CASCADE`); a donation it had claimed keeps its status and loses its
   charity (`SET_NULL`).
   */
  function DeleteUser(db: Db, uid: UserId): (db': Db)
    ensures db'.users == db.users - {uid}
    ensures forall k :: k in db'.donations <==> k in db.donations && db.donations[k].donor != uid
    ensures forall k :: k in db'.donations ==>
      && db'.donations[k].status == db.donations[k].status
      && db'.donations[k].charity == (if db.donations[k].charity == Some(uid) then None else db.donations[k].charity)
      && db'.donations[k] == db.donations[k].(charity := db'.donations[k].charity)
    ensures forall k :: k in db'.claims <==>
      k in db.claims && db.claims[k].charity != uid && db.claims[k].donation in db'.donations
    ensures forall k :: k in db'.claims ==> db'.claims[k] == db.claims[k]
    ensures forall k :: k in db'.wasteLogs <==> k in db.wasteLogs && db.wasteLogs[k].user != uid
    ensures forall k :: k in db'.wasteLogs ==> db'.wasteLogs[k] == db.wasteLogs[k]
    ensures forall k :: k in db'.reductions <==> k in db.reductions && db.reductions[k].user != uid
    ensures forall k :: k in db'.reductions ==> db'.reductions[k] == db.reductions[k]
    ensures db'.foodCategories == db.foodCategories && db'.wasteCategories == db.wasteCategories
    ensures db'.nextId == db.nextId
  {
    var donations := map k | k in db.donations && db.donations[k].donor != uid ::
      var d := db.donations[k];
      if d.charity == Some(uid) then d.(charity := None) else d;
    db.(users := db.users - {uid},
        donations := donations,
        claims := map k | k in db.claims && db.claims[k].charity != uid && db.claims[k].donation in donations :: db.claims[k],
        wasteLogs := map k | k in db.wasteLogs && db.wasteLogs[k].user != uid :: db.wasteLogs[k],
        reductions := map k | k in db.reductions && db.reductions[k].user != uid :: db.reductions[k])
  }

  /** Deleting a food category nulls the references of donations and waste logs and keeps the rows. */
  function DeleteFoodCategory(db: Db, cid: CategoryId): (db': Db)
    ensures db'.foodCategories == db.foodCategories - {cid}
    ensures db'.donations.Keys == db.donations.Keys && db'.wasteLogs.Keys == db.wasteLogs.Keys
    ensures forall k :: k in db'.donations ==>
      var l := db.donations[k].listing;
      db'.donations[k] == db.donations[k].(listing := l.(category := if l.category == Some(cid) then None else l.category))
    ensures forall k :: k in db'.wasteLogs ==>
      var e := db.wasteLogs[k].entry;
      db'.wasteLogs[k] == db.wasteLogs[k].(entry := e.(foodCategory := if e.foodCategory == Some(cid) then None else e.foodCategory))
    ensures db'.claims == db.claims && db'.users == db.users && db'.reductions == db.reductions
    ensures db'.wasteCategories == db.wasteCategories && db'.nextId == db.nextId
  {
    db.(foodCategories := db.foodCategories - {cid},
        donations := map k | k in db.donations ::
          var d := db.donations[k];
          if d.listing.category == Some(cid) then d.(listing := d.listing.(category := None)) else d,
        wasteLogs := map k | k in db.wasteLogs ::
          var w := db.wasteLogs[k];
          if w.entry.foodCategory == Some(cid) then w.(entry := w.entry.(foodCategory := None)) else w)
  }

  /** Deleting a waste category nulls the waste logs' references and keeps the logs. */
  function DeleteWasteCategory(db: Db, cid: CategoryId): (db': Db)
    ensures db'.wasteCategories == db.wasteCategories - {cid}
    ensures db'.wasteLogs.Keys == db.wasteLogs.Keys
    ensures forall k :: k in db'.wasteLogs ==>
      var e := db.wasteLogs[k].entry;
      db'.wasteLogs[k] == db.wasteLogs[k].(entry := e.(wasteCategory := if e.wasteCategory == Some(cid) then None else e.wasteCategory))
    ensures forall k :: k in db'.wasteLogs ==> db'.wasteLogs[k].entry.wasteCategory != Some(cid)
    ensures db'.donations == db.donations && db'.claims == db.claims && db'.nextId == db.nextId
    ensures db'.users == db.users && db'.reductions == db.reductions && db'.foodCategories == db.foodCategories
  {
    db.(wasteCategories := db.wasteCategories - {cid},
        wasteLogs := map k | k in db.wasteLogs ::
          var w := db.wasteLogs[k];
          if w.entry.wasteCategory == Some(cid) then w.(entry := w.entry.(wasteCategory := None)) else w)
  }
}
