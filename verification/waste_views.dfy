/**
 The waste-tracking viewsets: `WasteCategoryViewSet`'s permission table, and
 `WasteLogViewSet` and `WasteReductionViewSet` (their shared permission table,
 role-scoped querysets, the verification gate of `create`, the handlers, the
 per-user lists and the `stats` group counts).
 */
module WasteViews {
  import opened Wrappers
  import opened Users
  import opened Calendar
  import opened Http
  import opened Permissions
  import opened WasteModels
  import opened Store
  import opened WasteSerializers
  import opened Grouping
  import Ordering

  // ---------------------------------------------------------------------
  // Permission tables

  datatype WasteAction = List | Retrieve | Create | Update | PartialUpdate | Destroy | MyRecords | Stats

  /** `get_permissions` of both `WasteLogViewSet` and `WasteReductionViewSet`. */
  function WasteGate(a: WasteAction): PermissionClass {
    match a
    case Create => IsAdminOrVerifiedDonorClass
    case Update | PartialUpdate | Destroy => IsOwnerOrAdminClass
    case _ => IsAuthenticatedClass
  }

  /**
   Creating is for admins (verified or not) and verified donors; a charity is
   always refused. The list actions need only authentication.
   */
  lemma WasteGateTable(u: User)
    ensures u.role == Admin ==> HasPermission(WasteGate(Create), Authenticated(u))
    ensures u.role == Charity ==> !HasPermission(WasteGate(Create), Authenticated(u))
    ensures u.role == Donor ==> (HasPermission(WasteGate(Create), Authenticated(u)) <==> u.isVerified)
    ensures !HasPermission(WasteGate(Create), Anonymous)
    ensures HasPermission(WasteGate(MyRecords), Authenticated(u)) && HasPermission(WasteGate(Stats), Authenticated(u))
  {
  }

  // ---------------------------------------------------------------------
  // get_queryset

  /** The waste logs `u` can see: all for an admin, its own for every other role. */
  function LogsVisible(db: Db, u: User): (ids: set<LogId>)
    ensures ids <= db.wasteLogs.Keys
    ensures u.role == Admin ==> ids == db.wasteLogs.Keys
    ensures u.role != Admin ==> forall k :: k in ids <==> k in db.wasteLogs && db.wasteLogs[k].user == u.id
  {
    if u.role == Admin then db.wasteLogs.Keys else set k | k in db.wasteLogs && db.wasteLogs[k].user == u.id
  }

  /** The waste-reduction entries `u` can see, by the same rule. */
  function ReductionsVisible(db: Db, u: User): (ids: set<ReductionId>)
    ensures ids <= db.reductions.Keys
    ensures u.role == Admin ==> ids == db.reductions.Keys
    ensures u.role != Admin ==> forall k :: k in ids <==> k in db.reductions && db.reductions[k].user == u.id
  {
    if u.role == Admin then db.reductions.Keys else set k | k in db.reductions && db.reductions[k].user == u.id
  }

  /** The caller's own logs, which `my_logs` and `stats` read whatever the caller's role. */
  function OwnLogs(db: Db, u: User): (ids: set<LogId>)
    ensures forall k :: k in ids <==> k in db.wasteLogs && db.wasteLogs[k].user == u.id
  {
    set k | k in db.wasteLogs && db.wasteLogs[k].user == u.id
  }

  function OwnReductions(db: Db, u: User): (ids: set<ReductionId>)
    ensures forall k :: k in ids <==> k in db.reductions && db.reductions[k].user == u.id
  {
    set k | k in db.reductions && db.reductions[k].user == u.id
  }

  /**
   The checks a detail action on a waste log runs before its body: the view-level
   gate, the queryset lookup (an exception for an anonymous caller, whose role
   cannot be read), and the object-level gate on the `user` attribute.
   */
  function LogAccess(db: Db, r: Requester, a: WasteAction, id: LogId): (acc: Access)
    ensures acc.Granted? <==>
      && HasPermission(WasteGate(a), r) && r.Authenticated? && id in LogsVisible(db, r.user)
      && HasObjectPermission(WasteGate(a), r, WasteLogOwner(db.wasteLogs[id]))
    ensures acc.Granted? ==> id in db.wasteLogs
    ensures HasPermission(WasteGate(a), r) && r.Anonymous? ==> acc == Refused(ServerError)
  {
    if !HasPermission(WasteGate(a), r) then Refused(Forbidden(PermissionDenied))
    else if r.Anonymous? then Refused(ServerError)
    else if id !in LogsVisible(db, r.user) then Refused(NotFound)
    else if !HasObjectPermission(WasteGate(a), r, WasteLogOwner(db.wasteLogs[id])) then Refused(Forbidden(PermissionDenied))
    else Granted
  }

  function ReductionAccess(db: Db, r: Requester, a: WasteAction, id: ReductionId): (acc: Access)
    ensures acc.Granted? <==>
      && HasPermission(WasteGate(a), r) && r.Authenticated? && id in ReductionsVisible(db, r.user)
      && HasObjectPermission(WasteGate(a), r, ReductionOwner(db.reductions[id]))
    ensures acc.Granted? ==> id in db.reductions
    ensures HasPermission(WasteGate(a), r) && r.Anonymous? ==> acc == Refused(ServerError)
  {
    if !HasPermission(WasteGate(a), r) then Refused(Forbidden(PermissionDenied))
    else if r.Anonymous? then Refused(ServerError)
    else if id !in ReductionsVisible(db, r.user) then Refused(NotFound)
    else if !HasObjectPermission(WasteGate(a), r, ReductionOwner(db.reductions[id])) then Refused(Forbidden(PermissionDenied))
    else Granted
  }

  /** Update and destroy reach exactly the rows an admin sees or the caller owns. */
  lemma EditAccessIsOwnership(db: Db, u: User, a: WasteAction, id: LogId)
    requires a == Update || a == PartialUpdate || a == Destroy
    ensures LogAccess(db, Authenticated(u), a, id).Granted? <==>
      id in db.wasteLogs && (u.role == Admin || db.wasteLogs[id].user == u.id)
  {
  }

  // ---------------------------------------------------------------------
  // Waste-log handlers

  /**
   create: admins and verified donors; the new row belongs to the caller whatever
   `user` the body names. The view's own check for an unverified donor is never
   reached, because the gate refuses such a caller first.
   */
  function CreateLog(db: Db, r: Requester, now: nat, p: LogPayload): (o: Outcome)
    ensures o.response.Created? <==> IsAdminOrVerifiedDonor(r) && ApplyEntry(db, p.entry, DefaultEntry, false).Some?
    ensures !o.response.Created? ==> o.db == db
    ensures !IsAdminOrVerifiedDonor(r) ==> o.response == Forbidden(PermissionDenied)
    ensures o.response != Forbidden(VerificationRequired)
    ensures o.response.Created? ==>
      && o.response.id == db.nextId && db.nextId in o.db.wasteLogs
      && o.db.wasteLogs[db.nextId].user == r.user.id
      && o.db.wasteLogs[db.nextId].entry == ApplyEntry(db, p.entry, DefaultEntry, false).value
      && o.db.wasteLogs == db.wasteLogs[db.nextId := o.db.wasteLogs[db.nextId]]
      && o.db.(wasteLogs := db.wasteLogs, nextId := db.nextId) == db && o.db.nextId == db.nextId + 1
  {
    if !HasPermission(WasteGate(Create), r) then Outcome(Forbidden(PermissionDenied), db)
    else if r.user.role == Donor && !r.user.isVerified then Outcome(Forbidden(VerificationRequired), db)
    else
      match ApplyEntry(db, p.entry, DefaultEntry, false)
      case None => Outcome(BadRequest(InvalidPayload), db)
      case Some(e) =>
        Outcome(Created(db.nextId), db.(wasteLogs := db.wasteLogs[db.nextId := NewWasteLog(r.user.id, e, now)], nextId := db.nextId + 1))
  }

  /** The read-only keys of a create body (`user`, the timestamps, the category names) have no effect. */
  lemma CreateLogIgnoresReadOnly(db: Db, r: Requester, now: nat, p: LogPayload, q: LogPayload)
    requires p.entry == q.entry
    ensures CreateLog(db, r, now, p) == CreateLog(db, r, now, q)
  {
  }

  /**
   update / partial_update: the owner or an admin rewrites the entry; the owner
   and the creation time never change, the update time becomes now.
   */
  function UpdateLog(db: Db, r: Requester, now: nat, id: LogId, p: LogPayload, partial: bool): (o: Outcome)
    ensures o.response == Ok <==>
      && LogAccess(db, r, if partial then PartialUpdate else Update, id).Granted?
      && ApplyEntry(db, p.entry, db.wasteLogs[id].entry, partial).Some?
    ensures o.response != Ok ==> o.db == db
    ensures o.response == Ok ==>
      && id in db.wasteLogs && id in o.db.wasteLogs
      && o.db.(wasteLogs := db.wasteLogs) == db
      && o.db.wasteLogs == db.wasteLogs[id := o.db.wasteLogs[id]]
      && o.db.wasteLogs[id].user == db.wasteLogs[id].user
      && o.db.wasteLogs[id].createdAt == db.wasteLogs[id].createdAt
      && o.db.wasteLogs[id].updatedAt == now
      && o.db.wasteLogs[id].entry == ApplyEntry(db, p.entry, db.wasteLogs[id].entry, partial).value
    ensures r.Anonymous? ==> o.response == ServerError
    ensures r.Authenticated? && r.user.role != Admin && id in db.wasteLogs && db.wasteLogs[id].user != r.user.id ==>
      o.response != Ok
  {
    match LogAccess(db, r, if partial then PartialUpdate else Update, id)
    case Refused(resp) => Outcome(resp, db)
    case Granted =>
      var l := db.wasteLogs[id];
      match ApplyEntry(db, p.entry, l.entry, partial)
      case None => Outcome(BadRequest(InvalidPayload), db)
      case Some(e) => Outcome(Ok, db.(wasteLogs := db.wasteLogs[id := l.(entry := e, updatedAt := now)]))
  }

  /** destroy: the owner or an admin deletes the log; nothing refers to a log, so nothing else goes. */
  function DestroyLog(db: Db, r: Requester, id: LogId): (o: Outcome)
    ensures o.response == NoContent <==> LogAccess(db, r, Destroy, id).Granted?
    ensures o.response == NoContent ==> o.db == db.(wasteLogs := db.wasteLogs - {id})
    ensures o.response != NoContent ==> o.db == db
    ensures r.Authenticated? && id in db.wasteLogs ==>
      (o.response == NoContent <==> r.user.role == Admin || db.wasteLogs[id].user == r.user.id)
  {
    match LogAccess(db, r, Destroy, id)
    case Refused(resp) => Outcome(resp, db)
    case Granted => Outcome(NoContent, db.(wasteLogs := db.wasteLogs - {id}))
  }

  /** retrieve: any authenticated caller, for the logs in its queryset. */
  function RetrieveLog(db: Db, r: Requester, id: LogId): (resp: Response)
    ensures resp == Ok <==> r.Authenticated? && id in LogsVisible(db, r.user)
    ensures r.Anonymous? ==> resp == Forbidden(PermissionDenied)
    ensures r.Authenticated? && r.user.role != Admin && id in db.wasteLogs && db.wasteLogs[id].user != r.user.id ==> resp == NotFound
  {
    match LogAccess(db, r, Retrieve, id)
    case Refused(resp) => resp
    case Granted => Ok
  }

  // ---------------------------------------------------------------------
  // Waste-reduction handlers

  /** create: as for waste logs, the new row belongs to the caller. */
  function CreateReduction(db: Db, r: Requester, now: nat, p: ReductionPayload): (o: Outcome)
    ensures o.response.Created? <==> IsAdminOrVerifiedDonor(r) && ApplyReduction(p.entry, DefaultReduction, false).Some?
    ensures !o.response.Created? ==> o.db == db
    ensures !IsAdminOrVerifiedDonor(r) ==> o.response == Forbidden(PermissionDenied)
    ensures o.response != Forbidden(VerificationRequired)
    ensures o.response.Created? ==>
      && o.response.id == db.nextId && db.nextId in o.db.reductions
      && o.db.reductions[db.nextId].user == r.user.id && o.db.reductions[db.nextId].createdAt == now
      && o.db.reductions[db.nextId].entry == ApplyReduction(p.entry, DefaultReduction, false).value
      && o.db.reductions == db.reductions[db.nextId := o.db.reductions[db.nextId]]
      && o.db.(reductions := db.reductions, nextId := db.nextId) == db && o.db.nextId == db.nextId + 1
  {
    if !HasPermission(WasteGate(Create), r) then Outcome(Forbidden(PermissionDenied), db)
    else if r.user.role == Donor && !r.user.isVerified then Outcome(Forbidden(VerificationRequired), db)
    else
      match ApplyReduction(p.entry, DefaultReduction, false)
      case None => Outcome(BadRequest(InvalidPayload), db)
      case Some(e) =>
        Outcome(Created(db.nextId), db.(reductions := db.reductions[db.nextId := NewReduction(r.user.id, e, now)], nextId := db.nextId + 1))
  }

  /** The read-only keys of a create body (`user`, `created_at`) have no effect. */
  lemma CreateReductionIgnoresReadOnly(db: Db, r: Requester, now: nat, p: ReductionPayload, q: ReductionPayload)
    requires p.entry == q.entry
    ensures CreateReduction(db, r, now, p) == CreateReduction(db, r, now, q)
  {
  }

  /**
   update / partial_update: the owner or an admin rewrites the entry with the
   validated body; owner and creation time stay.
   */
  function UpdateReduction(db: Db, r: Requester, id: ReductionId, p: ReductionPayload, partial: bool): (o: Outcome)
    ensures o.response == Ok <==>
      && ReductionAccess(db, r, if partial then PartialUpdate else Update, id).Granted?
      && ApplyReduction(p.entry, db.reductions[id].entry, partial).Some?
    ensures o.response != Ok ==> o.db == db
    ensures o.response == Ok ==>
      && id in db.reductions && id in o.db.reductions
      && o.db.(reductions := db.reductions) == db
      && o.db.reductions == db.reductions[id := o.db.reductions[id]]
      && o.db.reductions[id].user == db.reductions[id].user
      && o.db.reductions[id].createdAt == db.reductions[id].createdAt
      && o.db.reductions[id].entry == ApplyReduction(p.entry, db.reductions[id].entry, partial).value
    ensures r.Anonymous? ==> o.response == ServerError
  {
    match ReductionAccess(db, r, if partial then PartialUpdate else Update, id)
    case Refused(resp) => Outcome(resp, db)
    case Granted =>
      var w := db.reductions[id];
      match ApplyReduction(p.entry, w.entry, partial)
      case None => Outcome(BadRequest(InvalidPayload), db)
      case Some(e) => Outcome(Ok, db.(reductions := db.reductions[id := w.(entry := e)]))
  }

  /** destroy: the owner or an admin deletes the entry. */
  function DestroyReduction(db: Db, r: Requester, id: ReductionId): (o: Outcome)
    ensures o.response == NoContent <==> ReductionAccess(db, r, Destroy, id).Granted?
    ensures o.response == NoContent ==> o.db == db.(reductions := db.reductions - {id})
    ensures o.response != NoContent ==> o.db == db
    ensures r.Authenticated? && id in db.reductions ==>
      (o.response == NoContent <==> r.user.role == Admin || db.reductions[id].user == r.user.id)
  {
    match ReductionAccess(db, r, Destroy, id)
    case Refused(resp) => Outcome(resp, db)
    case Granted => Outcome(NoContent, db.(reductions := db.reductions - {id}))
  }

  // ---------------------------------------------------------------------
  // Lists (ordering = ['-date'])

  /** Lists every member of `ids` once, latest date first. */
  method SortByDate<K(==)>(ids: set<K>, date: map<K, Date>) returns (s: seq<K>)
    requires ids <= date.Keys
    ensures forall x :: x in s <==> x in ids
    ensures Ordering.Distinct(s) && |s| == |ids|
    ensures forall i, j :: 0 <= i < j < |s| ==> OnOrBefore(date[s[j]], date[s[i]])
  {
    var key := map k | k in ids :: Ordinal(date[k]) as int;
    s := Ordering.SortDescending(ids, key);
    forall i, j | 0 <= i < j < |s|
      ensures OnOrBefore(date[s[j]], date[s[i]])
    {
      OrdinalMonotone(date[s[j]], date[s[i]]);
    }
  }

  /** list of waste logs: the caller's queryset, latest first. */
  method ListLogs(db: Db, r: Requester) returns (resp: Response, ids: seq<LogId>)
    ensures resp == Ok <==> r.Authenticated?
    ensures r.Authenticated? ==> (forall k :: k in ids <==> k in LogsVisible(db, r.user)) && Ordering.Distinct(ids)
    ensures forall i :: 0 <= i < |ids| ==> ids[i] in db.wasteLogs
    ensures forall i, j :: 0 <= i < j < |ids| ==> OnOrBefore(db.wasteLogs[ids[j]].entry.date, db.wasteLogs[ids[i]].entry.date)
    ensures r.Anonymous? ==> ids == []
  {
    if !HasPermission(WasteGate(List), r) {
      return Forbidden(PermissionDenied), [];
    }
    var visible := LogsVisible(db, r.user);
    ids := SortByDate(visible, map k | k in visible :: db.wasteLogs[k].entry.date);
    resp := Ok;
  }

  /** my_logs: exactly the caller's own logs, latest first, for admins too. */
  method MyLogs(db: Db, r: Requester) returns (resp: Response, ids: seq<LogId>)
    ensures resp == Ok <==> r.Authenticated?
    ensures r.Authenticated? ==> forall k :: k in ids <==> k in db.wasteLogs && db.wasteLogs[k].user == r.user.id
    ensures r.Authenticated? ==> |ids| == |OwnLogs(db, r.user)|
    ensures Ordering.Distinct(ids)
    ensures forall i :: 0 <= i < |ids| ==> ids[i] in db.wasteLogs
    ensures forall i, j :: 0 <= i < j < |ids| ==> OnOrBefore(db.wasteLogs[ids[j]].entry.date, db.wasteLogs[ids[i]].entry.date)
    ensures r.Anonymous? ==> ids == []
  {
    if !HasPermission(WasteGate(MyRecords), r) {
      return Forbidden(PermissionDenied), [];
    }
    var own := OwnLogs(db, r.user);
    ids := SortByDate(own, map k | k in own :: db.wasteLogs[k].entry.date);
    resp := Ok;
  }

  /** list of waste-reduction entries: the caller's queryset, latest first. */
  method ListReductions(db: Db, r: Requester) returns (resp: Response, ids: seq<ReductionId>)
    ensures resp == Ok <==> r.Authenticated?
    ensures r.Authenticated? ==> (forall k :: k in ids <==> k in ReductionsVisible(db, r.user)) && Ordering.Distinct(ids)
    ensures forall i :: 0 <= i < |ids| ==> ids[i] in db.reductions
    ensures forall i, j :: 0 <= i < j < |ids| ==> OnOrBefore(db.reductions[ids[j]].entry.date, db.reductions[ids[i]].entry.date)
    ensures r.Anonymous? ==> ids == []
  {
    if !HasPermission(WasteGate(List), r) {
      return Forbidden(PermissionDenied), [];
    }
    var visible := ReductionsVisible(db, r.user);
    ids := SortByDate(visible, map k | k in visible :: db.reductions[k].entry.date);
    resp := Ok;
  }

  /** my_reductions: exactly the caller's own entries, latest first, for admins too. */
  method MyReductions(db: Db, r: Requester) returns (resp: Response, ids: seq<ReductionId>)
    ensures resp == Ok <==> r.Authenticated?
    ensures r.Authenticated? ==> forall k :: k in ids <==> k in db.reductions && db.reductions[k].user == r.user.id
    ensures Ordering.Distinct(ids)
    ensures forall i :: 0 <= i < |ids| ==> ids[i] in db.reductions
    ensures forall i, j :: 0 <= i < j < |ids| ==> OnOrBefore(db.reductions[ids[j]].entry.date, db.reductions[ids[i]].entry.date)
    ensures r.Anonymous? ==> ids == []
  {
    if !HasPermission(WasteGate(MyRecords), r) {
      return Forbidden(PermissionDenied), [];
    }
    var own := OwnReductions(db, r.user);
    ids := SortByDate(own, map k | k in own :: db.reductions[k].entry.date);
    resp := Ok;
  }

  // ---------------------------------------------------------------------
  // stats

  /** The `stats` body: the number of the caller's logs and three group counts over them. */
  datatype StatsBody = StatsBody(
    totalLogs: nat,
    byType: seq<(WasteType, nat)>,
    byCategory: seq<(Option<string>, nat)>,
    byMonth: seq<(nat, nat)>)

  /** The waste types in the order of their stored values ("expired" < "leftovers" < "other" < "spoiled"). */
  const TypeOrder: seq<WasteType> := [Expired, Leftovers, Other, Spoiled]

  function TypeRank(t: WasteType): int {
    match t
    case Expired => 0
    case Leftovers => 1
    case Other => 2
    case Spoiled => 3
  }

  /** The months 1 to 12, which `EXTRACT(month FROM date)` yields, in ascending order. */
  const MonthOrder: seq<nat> := Upto(1, 13)

  /** The numbers from `lo` up to, not including, `hi`. */
  function Upto(lo: nat, hi: nat): (s: seq<nat>)
    requires lo <= hi
    ensures |s| == hi - lo && forall i :: 0 <= i < |s| ==> s[i] == lo + i
    decreases hi - lo
  {
    if lo == hi then [] else [lo] + Upto(lo + 1, hi)
  }

  function TypesOf(db: Db, ids: seq<LogId>): (ts: seq<WasteType>)
    requires forall i :: 0 <= i < |ids| ==> ids[i] in db.wasteLogs
    ensures |ts| == |ids| && forall i :: 0 <= i < |ids| ==> ts[i] == db.wasteLogs[ids[i]].entry.wasteType
  {
    seq(|ids|, i requires 0 <= i < |ids| => db.wasteLogs[ids[i]].entry.wasteType)
  }

  function MonthsOf(db: Db, ids: seq<LogId>): (ms: seq<nat>)
    requires forall i :: 0 <= i < |ids| ==> ids[i] in db.wasteLogs
    ensures |ms| == |ids| && forall i :: 0 <= i < |ids| ==> ms[i] == db.wasteLogs[ids[i]].entry.date.month as nat
  {
    seq(|ids|, i requires 0 <= i < |ids| => db.wasteLogs[ids[i]].entry.date.month as nat)
  }

  function CategoryNamesOf(db: Db, ids: seq<LogId>): (ns: seq<Option<string>>)
    requires forall i :: 0 <= i < |ids| ==> ids[i] in db.wasteLogs
    ensures |ns| == |ids| && forall i :: 0 <= i < |ids| ==> ns[i] == WasteCategoryName(db, db.wasteLogs[ids[i]])
  {
    seq(|ids|, i requires 0 <= i < |ids| => WasteCategoryName(db, db.wasteLogs[ids[i]]))
  }

  /**
   The `stats` body for the logs `ids`: their number and, per waste type, per
   category name and per month, how many of them have that key. Every group is
   non-empty, each grouping adds up to the number of logs, the types and months
   come in ascending order and no category name comes twice.
   */
  function Summarize(db: Db, ids: seq<LogId>): (b: StatsBody)
    requires forall i :: 0 <= i < |ids| ==> ids[i] in db.wasteLogs
    ensures b.totalLogs == |ids|
    ensures Total(b.byType) == |ids| && Total(b.byMonth) == |ids| && Total(b.byCategory) == |ids|
    ensures forall i :: 0 <= i < |b.byType| ==> b.byType[i].1 == Count(TypesOf(db, ids), b.byType[i].0) > 0
    ensures forall i :: 0 <= i < |b.byMonth| ==> b.byMonth[i].1 == Count(MonthsOf(db, ids), b.byMonth[i].0) > 0
    ensures forall i :: 0 <= i < |b.byCategory| ==> b.byCategory[i].1 == Count(CategoryNamesOf(db, ids), b.byCategory[i].0) > 0
    ensures KeysAscendingBy(b.byType, TypeRank) && KeysAscendingBy(b.byMonth, (m: nat) => m as int)
    ensures KeysDistinct(b.byCategory)
  {
    var names := CategoryNamesOf(db, ids);
    TypeTotals(db, ids);
    MonthTotals(db, ids);
    CategoryTotals(db, ids);
    TypesAscending(db, ids);
    MonthsAscending(db, ids);
    GroupsDistinct(names, Dedup(names));
    StatsBody(|ids|, Groups(TypesOf(db, ids), TypeOrder), Groups(names, Dedup(names)), Groups(MonthsOf(db, ids), MonthOrder))
  }

  /** The counts per waste type add up to the number of logs. */
  lemma TypeTotals(db: Db, ids: seq<LogId>)
    requires forall i :: 0 <= i < |ids| ==> ids[i] in db.wasteLogs
    ensures Total(Groups(TypesOf(db, ids), TypeOrder)) == |ids|
  {
    var types := TypesOf(db, ids);
    forall i | 0 <= i < |types|
      ensures types[i] in TypeOrder
    {
      assert TypeOrder[TypeRank(types[i])] == types[i];
    }
    GroupsSumToTotal(types, TypeOrder);
  }

  /** The counts per month add up to the number of logs. */
  lemma MonthTotals(db: Db, ids: seq<LogId>)
    requires forall i :: 0 <= i < |ids| ==> ids[i] in db.wasteLogs
    ensures Total(Groups(MonthsOf(db, ids), MonthOrder)) == |ids|
  {
    var months := MonthsOf(db, ids);
    forall i | 0 <= i < |months|
      ensures months[i] in MonthOrder
    {
      assert MonthOrder[months[i] - 1] == months[i];
    }
    GroupsSumToTotal(months, MonthOrder);
  }

  /** The counts per category name add up to the number of logs. */
  lemma CategoryTotals(db: Db, ids: seq<LogId>)
    requires forall i :: 0 <= i < |ids| ==> ids[i] in db.wasteLogs
    ensures var names := CategoryNamesOf(db, ids); Total(Groups(names, Dedup(names))) == |ids|
  {
    var names := CategoryNamesOf(db, ids);
    GroupsSumToTotal(names, Dedup(names));
  }

  /** The waste types come out in ascending order of their stored values. */
  lemma TypesAscending(db: Db, ids: seq<LogId>)
    requires forall i :: 0 <= i < |ids| ==> ids[i] in db.wasteLogs
    ensures KeysAscendingBy(Groups(TypesOf(db, ids), TypeOrder), TypeRank)
  {
    assert AscendingBy(TypeOrder, TypeRank);
    GroupsAscending(TypesOf(db, ids), TypeOrder, TypeRank);
  }

  /** The months come out in ascending order. */
  lemma MonthsAscending(db: Db, ids: seq<LogId>)
    requires forall i :: 0 <= i < |ids| ==> ids[i] in db.wasteLogs
    ensures KeysAscendingBy(Groups(MonthsOf(db, ids), MonthOrder), (m: nat) => m as int)
  {
    assert AscendingBy(MonthOrder, (m: nat) => m as int);
    GroupsAscending(MonthsOf(db, ids), MonthOrder, (m: nat) => m as int);
  }

  /**
   stats: the summary of the caller's own logs only (`ids`, each once), for
   admins too; its count is the number of logs the caller owns.
   */
  method StatsAction(db: Db, r: Requester) returns (resp: Response, ids: seq<LogId>, body: StatsBody)
    ensures resp == Ok <==> r.Authenticated?
    ensures r.Authenticated? ==> forall k :: k in ids <==> k in db.wasteLogs && db.wasteLogs[k].user == r.user.id
    ensures Ordering.Distinct(ids) && forall i :: 0 <= i < |ids| ==> ids[i] in db.wasteLogs
    ensures resp == Ok ==> body == Summarize(db, ids) && body.totalLogs == |OwnLogs(db, r.user)|
  {
    var own;
    resp, own := MyLogs(db, r);
    if resp != Ok {
      return resp, [], StatsBody(0, [], [], []);
    }
    ids := own;
    body := Summarize(db, ids);
  }

  // ---------------------------------------------------------------------
  // Waste categories

  /**
   `WasteCategoryViewSet` destroy: an admin deletes a category; the waste logs
   in it keep their rows and lose their category (`SET_NULL`).
   */
  function DestroyWasteCategory(db: Db, r: Requester, cid: CategoryId): (o: Outcome)
    ensures o.response == NoContent <==> IsAdmin(r) && cid in db.wasteCategories
    ensures !HasPermission(CategoryGate(DestroyCategory), r) ==> o == Outcome(Forbidden(PermissionDenied), db)
    ensures IsAdmin(r) && cid !in db.wasteCategories ==> o == Outcome(NotFound, db)
    ensures o.response == NoContent ==>
      && cid !in o.db.wasteCategories && o.db.wasteLogs.Keys == db.wasteLogs.Keys
      && forall k :: k in db.wasteLogs && db.wasteLogs[k].entry.wasteCategory == Some(cid) ==>
           o.db.wasteLogs[k].entry.wasteCategory == None
    ensures o.response == NoContent ==> o.db == DeleteWasteCategory(db, cid)
  {
    if !HasPermission(CategoryGate(DestroyCategory), r) then Outcome(Forbidden(PermissionDenied), db)
    else if cid !in db.wasteCategories then Outcome(NotFound, db)
    else Outcome(NoContent, DeleteWasteCategory(db, cid))
  }
}
