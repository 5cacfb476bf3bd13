/**
 The charity's page of available donations: the list of cards the server
 returned, narrowed by four filters (free-text search, category, location and
 earliest expiry date), and the claim dialog that posts a claim for the selected
 card and, on success, drops that card from the list.
 */
module AvailableDonations {
  import opened Wrappers
  import opened Text
  import opened Calendar
  import opened Selection
  import opened Users
  import opened Http
  import opened DonationModels
  import opened Store
  import DonationSerializers
  import DonationViews
  import RouteGuard

  /** The donor's names, as the nested `donor_details` object carries them. */
  datatype DonorDetails = DonorDetails(firstName: string, lastName: string)

  /** One donation as the page holds it: the fields the filters and the claim read. */
  datatype Card = Card(
    id: DonationId,
    foodName: string,
    description: string,
    donor: Option<DonorDetails>,
    category: Option<CategoryId>,
    pickupCity: string,
    pickupState: string,
    pickupZip: string,
    expiryDate: Date)

  /** The card the serializer produces for stored donation `id`; the category is `null` once it was deleted. */
  function CardOf(db: Db, id: DonationId): (c: Card)
    requires id in db.donations
    ensures c.id == id && c.category == db.donations[id].listing.category
    ensures c.donor.Some? <==> db.donations[id].donor in db.users
  {
    var d := db.donations[id];
    var l := d.listing;
    var donor := if d.donor in db.users
      then Some(DonorDetails(db.users[d.donor].profile.firstName, db.users[d.donor].profile.lastName))
      else None;
    Card(id, l.foodName, l.description, donor, l.category, l.pickupCity, l.pickupState, l.pickupZip, l.expiryDate)
  }

  /** The four filter inputs; the category is the selected option's value, a decimal id or `""`. */
  datatype Filters = Filters(search: string, category: string, location: string, expiry: Option<Date>)

  /** What clearing the filters sets them to. */
  const Cleared := Filters("", "", "", None)

  /** `a.toLowerCase().includes(b.toLowerCase())`. */
  predicate IncludesIgnoringCase(hay: string, needle: string) {
    Contains(Lower(hay), Lower(needle))
  }

  predicate MatchesSearch(c: Card, term: string) {
    || term == ""
    || IncludesIgnoringCase(c.foodName, term)
    || IncludesIgnoringCase(c.description, term)
    || (c.donor.Some? && IncludesIgnoringCase(c.donor.value.firstName, term))
    || (c.donor.Some? && IncludesIgnoringCase(c.donor.value.lastName, term))
  }

  /** City and state ignore case; the postal code is compared as typed. */
  predicate MatchesLocation(c: Card, place: string) {
    || place == ""
    || IncludesIgnoringCase(c.pickupCity, place)
    || IncludesIgnoringCase(c.pickupState, place)
    || Contains(c.pickupZip, place)
  }

  /** Cards expiring on or after the chosen date pass. */
  predicate MatchesExpiry(c: Card, earliest: Option<Date>) {
    earliest.None? || OnOrBefore(earliest.value, c.expiryDate)
  }

  /**
   The category test as written: `category.toString() === filter` once a
   category is chosen. A card whose category is `null` makes `toString` throw,
   which is `None` here.
   */
  function CategoryAsWritten(c: Card, filter: string): Option<bool> {
    if filter == "" then Some(true)
    else if c.category.None? then None
    else Some(Decimal(c.category.value) == filter)
  }

  /** The category test a card without a category can pass only when no category is chosen. */
  predicate MatchesCategory(c: Card, filter: string) {
    filter == "" || (c.category.Some? && Decimal(c.category.value) == filter)
  }

  predicate Matches(c: Card, f: Filters) {
    MatchesSearch(c, f.search) && MatchesCategory(c, f.category)
    && MatchesLocation(c, f.location) && MatchesExpiry(c, f.expiry)
  }

  /** The cards shown, with the category test corrected. */
  function Filtered(cards: seq<Card>, f: Filters): seq<Card> {
    Select(cards, c => Matches(c, f))
  }

  /**
   The list as written: every card computes its category test, so one card
   without a category throws for the whole list once a category is chosen.
   */
  function FilterAsWritten(cards: seq<Card>, f: Filters): (r: Option<seq<Card>>)
    decreases |cards|
  {
    if cards == [] then Some([])
    else
      var c := cards[0];
      match CategoryAsWritten(c, f.category)
      case None => None
      case Some(ok) =>
        match FilterAsWritten(cards[1..], f)
        case None => None
        case Some(rest) =>
          Some((if MatchesSearch(c, f.search) && ok && MatchesLocation(c, f.location) && MatchesExpiry(c, f.expiry)
                then [c] else []) + rest)
  }

  /** The shown cards are exactly the listed ones that pass every filter, in the server's order. */
  lemma FilteredIsSelection(cards: seq<Card>, f: Filters, c: Card)
    ensures c in Filtered(cards, f) <==> c in cards && Matches(c, f)
    ensures SubsequenceOf(Filtered(cards, f), cards)
  {
    SelectMembers(cards, c => Matches(c, f), c);
    SelectIsSubsequence(cards, c => Matches(c, f));
  }

  /** After clearing the filters every card is shown. */
  lemma ClearedShowsAll(cards: seq<Card>)
    ensures Filtered(cards, Cleared) == cards
  {
    SelectAll(cards, c => Matches(c, Cleared));
  }

  /** Choosing the option of category `k` keeps exactly the cards of category `k`. */
  lemma CategoryFilterExact(c: Card, k: CategoryId)
    ensures MatchesCategory(c, Decimal(k)) <==> c.category == Some(k)
  {
    if c.category.Some? && Decimal(c.category.value) == Decimal(k) {
      DecimalInjective(c.category.value, k);
    }
  }

  /** Lower-casing twice is lower-casing once. */
  lemma LowerIdempotent(s: string)
    ensures Lower(Lower(s)) == Lower(s)
  {
    assert forall i :: 0 <= i < |s| ==> LowerChar(LowerChar(s[i])) == LowerChar(s[i]);
  }

  /** The search ignores the case of the term. */
  lemma SearchIgnoresCase(c: Card, term: string)
    ensures MatchesSearch(c, term) <==> MatchesSearch(c, Lower(term))
  {
    LowerIdempotent(term);
  }

  /**
   The list as written throws exactly when a category is chosen and some listed
   card has none; when it does not throw it shows what the corrected filter shows.
   */
  lemma {:induction false} FilterAsWrittenAgrees(cards: seq<Card>, f: Filters)
    ensures FilterAsWritten(cards, f).None? <==>
      f.category != "" && exists i :: 0 <= i < |cards| && cards[i].category.None?
    ensures FilterAsWritten(cards, f).Some? ==> FilterAsWritten(cards, f).value == Filtered(cards, f)
    decreases |cards|
  {
    if cards != [] {
      FilterAsWrittenAgrees(cards[1..], f);
      if exists i :: 0 <= i < |cards[1..]| && cards[1..][i].category.None? {
        var i :| 0 <= i < |cards[1..]| && cards[1..][i].category.None?;
        assert cards[i + 1].category.None?;
      }
      if exists i :: 0 <= i < |cards| && cards[i].category.None? {
        var i :| 0 <= i < |cards| && cards[i].category.None?;
        if i > 0 {
          assert cards[1..][i - 1].category.None?;
        }
      }
    }
  }

  /** A card whose category was deleted, under a chosen category, makes the page throw. */
  lemma NullCategoryThrows()
    ensures FilterAsWritten([Card(1, "Bread", "", None, None, "Springfield", "IL", "62701", Date(2025, 1, 1))],
                            Filters("", "1", "", None)) == None
  {
  }

  /**
   An admin deleting a food category leaves its donations with a `null`
   category, so once any category is chosen the page as written throws on a list
   holding one of them, while the corrected filter simply hides it.
   */
  lemma DeletedCategoryThrows(db: Db, admin: User, cid: CategoryId, id: DonationId, f: Filters)
    requires admin.role == Admin && cid in db.foodCategories
    requires id in db.donations && db.donations[id].listing.category == Some(cid)
    requires f.category != ""
    ensures var o := DonationViews.DestroyFoodCategory(db, Authenticated(admin), cid);
      && o.response == NoContent && id in o.db.donations
      && FilterAsWritten([CardOf(o.db, id)], f) == None && Filtered([CardOf(o.db, id)], f) == []
  {
  }

  /** The claim dialog's inputs; `""` stands for an empty pickup time. */
  datatype ClaimForm = ClaimForm(pickupTime: string, notes: string)

  const EmptyClaimForm := ClaimForm("", "")

  /**
   The body posted to the claim endpoint. A filled pickup time is converted to an
   ISO timestamp before it is sent; the model keeps the input's text for it and
   does not model the conversion. An empty one is sent as `null`.
   */
  datatype ClaimRequest = ClaimRequest(donation: DonationId, pickupTime: Option<string>, notes: string)

  /** The server's answer to the post: success, or failure with an optional `detail` message. */
  datatype ClaimReply = Accepted | Refused(detail: Option<string>)

  /** The state of the page that a claim submission reads and writes. */
  datatype Page = Page(
    cards: seq<Card>,
    selected: Option<Card>,
    form: ClaimForm,
    claimDialogOpen: bool,
    error: Option<string>,
    success: Option<string>)

  const MustBeVerified := "You must be verified to claim donations. Please contact an administrator to verify your account."
  const ClaimFailed := "Failed to claim donation. Please try again."

  /** `user?.is_verified || false`. */
  predicate ClientVerified(user: Option<RouteGuard.ClientUser>) {
    user.Some? && user.value.isVerified
  }

  /**
   Submitting the claim dialog: nothing happens without a selected card; an
   unverified user gets an error and nothing is sent; otherwise the request is
   sent and `reply` is the server's answer. The page and the request sent, if any.
   */
  function SubmitClaim(p: Page, user: Option<RouteGuard.ClientUser>, reply: ClaimReply): (r: (Page, Option<ClaimRequest>))
    ensures r.1.Some? <==> p.selected.Some? && ClientVerified(user)
    ensures r.1.Some? ==>
      && r.1.value.donation == p.selected.value.id && r.1.value.notes == p.form.notes
      && (r.1.value.pickupTime.None? <==> p.form.pickupTime == "")
    ensures p.selected.Some? && !ClientVerified(user) ==> r.0 == p.(error := Some(MustBeVerified))
    ensures r.1.None? ==> r.0.cards == p.cards && r.0.form == p.form
    ensures r.1.Some? && reply.Accepted? ==>
      && (forall c :: c in r.0.cards <==> c in p.cards && c.id != p.selected.value.id)
      && r.0.form == EmptyClaimForm && !r.0.claimDialogOpen && r.0.success.Some?
    ensures r.1.Some? && reply.Refused? ==>
      && r.0.cards == p.cards && r.0.form == p.form && r.0.claimDialogOpen == p.claimDialogOpen
      && r.0.error == Some(if reply.detail.Some? then reply.detail.value else ClaimFailed)
  {
    if p.selected.None? then (p, None)
    else if !ClientVerified(user) then (p.(error := Some(MustBeVerified)), None)
    else
      var sel := p.selected.value;
      var req := ClaimRequest(sel.id, if p.form.pickupTime == "" then None else Some(p.form.pickupTime), p.form.notes);
      match reply
      case Accepted =>
        var left := Select(p.cards, (d: Card) => d.id != sel.id);
        RemoveClaimed(p.cards, sel.id);
        (p.(cards := left, success := Some("Successfully claimed \"" + sel.foodName + "\""),
            claimDialogOpen := false, form := EmptyClaimForm), Some(req))
      case Refused(detail) =>
        (p.(error := Some(if detail.Some? then detail.value else ClaimFailed)), Some(req))
  }

  lemma RemoveClaimed(cards: seq<Card>, id: DonationId)
    ensures forall c :: c in Select(cards, (d: Card) => d.id != id) <==> c in cards && c.id != id
  {
    forall c
      ensures c in Select(cards, (d: Card) => d.id != id) <==> c in cards && c.id != id
    {
      SelectMembers(cards, (d: Card) => d.id != id, c);
    }
  }

  /**
   For a charity, the page's verification check agrees with the server's: the
   page sends nothing exactly when the claim endpoint would refuse the caller
   with 403, so it neither hides a claim the server would take nor sends one the
   server refuses for want of verification.
   */
  lemma ClientCheckMatchesServer(db: Db, u: User, unlisted: string, now: nat, id: DonationId, p: DonationSerializers.ClaimPayload)
    requires u.role == Charity
    ensures !ClientVerified(Some(RouteGuard.ClientUserOf(u, unlisted)))
      <==> DonationViews.ClaimDonation(db, Authenticated(u), now, id, p).response.Forbidden?
  {
  }
}
