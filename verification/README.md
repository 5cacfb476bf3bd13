# Food donation and waste tracker — a Dafny model

This project models the core of a food-donation platform. On the backend it is a
Django REST Framework API. Donors list surplus food, verified charities claim it
and mark it received, and donors log food waste and waste-reduction efforts. On
the frontend, React pages guard routes by role and filter the available
donations. The registration page and the change-password dialog check their
forms before posting.

The model covers:

- **Authorization.** The role predicates of the accounts app. The object check
  `IsOwnerOrAdmin`. The per-action gate tables each view set's `get_permissions`
  returns. The role-scoped querysets that decide what a detail action can reach
  (`Permissions`, `Store`, `DonationViews`, `ClaimViews`, `WasteViews`, `Accounts`).
- **The donation lifecycle** `available → claimed → received`.
  - Donations and claims live in maps inside one store `Db`. Every request is a
    pure step `(Db, requester, now, input) → Outcome(response, Db')`.
  - `Lifecycle.Inv` is an invariant of the store that every request of the
    donations endpoint preserves. `Lifecycle.Progress` says no donation moves
    backwards. The corrected claims endpoint preserves both over any sequence
    of requests.
  - The claims endpoint as written breaks both, and so does deleting a charity
    user. Lemmas exhibit each break.
- **Validators and serializers.** Field cleaning (DRF `CharField` trims its input).
  The donation, claim, waste-log and reduction serializers, with their read-only
  fields. Registration and password change. `validate_pickup_time`.
- **Waste tracking.** Ownership, the verification gate on create, the
  `my_logs`/`my_reductions` actions, and the `stats` group counts
  (`Grouping`, `WasteViews`).
- **Frontend.** The route guard (`RouteGuard`). The available-donations filter,
  `clearFilters` and claim submission (`AvailableDonations`). The client-side
  checks of the registration form (`RegisterPage`) and of the password dialog
  (`PasswordPage`). Each is related to the server's answer to the request it
  sends.

Responses are tagged values (`Http.Response`), not JSON payloads. 401 and 403
are both `Forbidden`. An exception raised while a view runs is `ServerError`.
The clock is a natural number passed in by the caller. An authenticated
requester carries its user row. The account handlers require it to be the
stored row of that user (`Store.SignedIn`), because authentication loads
`request.user` from the user table. The accounts app's user
model, `accounts/models.py`, is not part of this model. Its role choices
(`admin`, `donor`, `charity`), its `is_verified` default (false) and its default
role (`donor`, `Accounts.DefaultRole`) are assumed.

Some answers of the API are easy to misread from the names of its errors and
fields. The model follows the code:

- An unverified donor's create and an unverified charity's claim are refused by
  the permission class before the view's own check runs. So the answer is the
  generic permission denial (`PermissionDenied`), never the distinct
  "verification required" answer. `DonationViews.CreateDonation` and
  `DonationViews.ClaimDonation` state this.
- A second claim of the same donation by the same charity is not a distinct
  "duplicate claim" error.
  - Through the donations endpoint's `claim` action, the second attempt
    normally gets 400, because the donation is no longer available.
  - The claims endpoint's create (`DonationClaimViewSet.create`) does meet the
    database's integrity error on the repeated (donation, charity) pair. It
    does not catch it, so the answer is 500 (`ServerError`).
  - The `claim` action's generic handler also answers 500 for that error.
    This only happens when the donation is available while the caller's claim
    on it still exists.
- A charity claiming a donation another charity holds does not get "invalid
  state". The charity's queryset hides that donation, so the answer is 404
  (`NotFound`).
- The donation serializer requires every non-blank model field: food name,
  description, quantity, expiry date, pickup address, city, state and zip. The
  category is optional, because its foreign key is nullable. A create without
  it stores no category.
- A full update (PUT) must resend every required field, but an optional,
  nullable field it leaves out keeps its stored value rather than becoming
  null. This holds for the donation's category and pickup instructions, the
  waste log's description, notes and categories, and a reduction's
  `amount_saved`.

## Model

| member | source | states |
|---|---|---|
| Permissions.AnonymousRefused | food_donation_project/accounts/permissions.py:7-100 | Every permission class except `AllowAny` refuses an anonymous caller at the stage it defines. `IsOwnerOrAdmin` refuses one at the object stage. |
| Permissions.VerifiedImpliesRole | food_donation_project/accounts/permissions.py:10-40 | `IsVerifiedDonor` holds exactly when `IsDonor` holds and the user is verified; likewise for charities. Verification never grants a role. |
| Permissions.CombinedAreDisjunctions | food_donation_project/accounts/permissions.py:42-80 | Each "admin or …" class is the disjunction of `IsAdmin` with the corresponding single class. |
| Permissions.AdminIgnoresVerification | food_donation_project/accounts/permissions.py:55-60 | An admin passes `IsAdminOrVerifiedDonor` and `IsAdminOrVerifiedCharity` whatever its verification flag. |
| Permissions.DonorAndCharityExclusive | food_donation_project/accounts/permissions.py:14-15 | No requester passes both a donor class and a charity class, because the role is single-valued. |
| Permissions.AdminOwnsEverything | food_donation_project/accounts/permissions.py:90-92 | `IsOwnerOrAdmin` admits an admin on any object. |
| Permissions.OwnerFieldPrecedence | food_donation_project/accounts/permissions.py:94-100 | For a non-admin, a `user` attribute alone decides ownership. `donor` is consulted only without it. An object with neither is refused. |
| Permissions.CategoryGate | food_donation_project/donations/views.py:15-26 | Listing and retrieving categories needs authentication. Every write passes exactly for admins. The waste-category view set, food_donation_project/waste_tracking/views.py:11-22, uses the same table. |
| Store.ClaimOwnedByAdminOnly | food_donation_project/donations/models.py:74-86 | A claim owns through `charity`, which `IsOwnerOrAdmin` does not read. So only an admin passes the object check on a claim, not even its charity. |
| Store.WasteLogOwnedByUser | food_donation_project/waste_tracking/models.py:32-36 | A non-admin passes the object check on exactly the waste logs whose `user` it is. |
| Store.DeleteDonation | food_donation_project/donations/models.py:76 | Deleting a donation removes it and every claim on it (cascade). Every other claim, user, log and reduction stays unchanged. |
| Store.DeleteUser | food_donation_project/donations/models.py:31-42 | Deleting a user cascades to their donations, claims, logs and reductions. Donations they held as charity keep their status and get a null charity. The other rows are unchanged. |
| Store.DeleteFoodCategory | food_donation_project/waste_tracking/models.py:47-52 | Deleting a food category nulls the category of the donations and the food category of the waste logs that referred to it. It keeps every row. |
| Store.DeleteWasteCategory | food_donation_project/waste_tracking/models.py:41-46 | Deleting a waste category nulls the references of the logs and keeps every log. No log refers to it afterwards. |
| Calendar.OrdinalMonotone | food_donation_project/waste_tracking/models.py:62 | The numeric date key used for sorting orders dates exactly as the (year, month, day) order of a date column does, in both directions. |
| Text.Trim | food_donation_project/accounts/serializers.py:67-69 | A `CharField` value as validated has no whitespace at either end and is no longer than the input. Whitespace is Python's `str.isspace` class, which `str.strip()` removes. |
| Text.TrimIdempotent | food_donation_project/accounts/serializers.py:67-69 | Trimming a trimmed value changes nothing. |
| Text.TrimEmptyIffBlank | food_donation_project/accounts/serializers.py:67-69 | A value trims to empty exactly when it is all whitespace, so a blank-refusing field refuses exactly those. |
| Text.TrimPadded | frontend/src/pages/Profile.tsx:411-414 | Leading whitespace before a trimmed value is exactly what the server strips. |
| Text.Lower | frontend/src/pages/charity/AvailableDonations.tsx:200-203 | `toLowerCase` keeps the length and lower-cases each ASCII capital, leaving every other character alone. |
| Text.ContainsIffOccurs | frontend/src/pages/charity/AvailableDonations.tsx:200-210 | `includes` holds exactly when the needle occurs at some offset of the haystack. |
| Text.EmptyNeedle | frontend/src/pages/charity/AvailableDonations.tsx:200-210 | The empty needle is included in every string. |
| Text.Decimal | frontend/src/pages/charity/AvailableDonations.tsx:205 | `toString` of a number is a non-empty run of digits ending in its last decimal digit, longer than one digit exactly from 10 on. |
| Text.DecimalInjective | frontend/src/pages/charity/AvailableDonations.tsx:205 | Distinct category ids render to distinct strings, so the category filter cannot confuse two categories. |
| Fields.CleanChar | food_donation_project/donations/models.py:43-56 | A text field accepts a value exactly when its trimmed form is non-blank (unless blanks are allowed), holds no null character and is within `max_length`. It stores the trimmed form. |
| Fields.BlankRejected | food_donation_project/donations/models.py:43-45 | A value of whitespace only never passes a required text field. |
| Fields.RequiredChar | food_donation_project/donations/serializers.py:29-45 | An absent key falls back to the stored value on a partial update, and is an error otherwise. A present key is cleaned as its field demands. |
| DonationModels.NewDonation | food_donation_project/donations/models.py:36-62 | A new donation is available, with no charity, no claim time and no receipt time. |
| DonationModels.NewClaim | food_donation_project/donations/models.py:82-86 | A new claim is not received and has no receipt time. It is claimed at the current time. |
| DonationModels.InsertClaim | food_donation_project/donations/models.py:93 | The claims table refuses a row exactly when its (donation, charity) pair is taken. An accepted insert keeps the pairs unique. |
| DonationSerializers.EmptyPatchKeepsListing | food_donation_project/donations/serializers.py:29-45 | A partial update that submits nothing leaves the listing unchanged. |
| DonationSerializers.FullApplyNeedsRequired | food_donation_project/donations/models.py:43-56 | A create or full update succeeds only when food name, description, quantity, expiry date and the four pickup address attributes are all submitted. Category and pickup instructions may be left out. |
| DonationSerializers.ApplyListingCleansText | food_donation_project/donations/models.py:43-57 | Submitted text is stored trimmed. Food name, quantity, city, state and zip are non-blank and within their `max_length` (255, 100, 100, 100, 10). Description and pickup address are non-blank. Submitted pickup instructions are stored trimmed and hold no null character. |
| DonationSerializers.ApplyListingCategory | food_donation_project/donations/models.py:46-51 | A submitted category is stored as sent and is null or an existing category. |
| DonationSerializers.ApplyListingKeepsAbsent | food_donation_project/donations/serializers.py:29-45 | On an accepted update, each of the ten writable attributes that is not submitted keeps its stored value. On a create, an absent category stays null. |
| DonationSerializers.ClaimedBy | food_donation_project/donations/serializers.py:76-81 | The claim write sets the status to claimed, the charity and the claim time. It keeps donor, listing, creation time and receipt time. |
| DonationSerializers.ReceivedAt | food_donation_project/donations/views.py:133-136 | The receipt write sets the status to received and the receipt time. It keeps everything else. |
| DonationSerializers.ClaimReceived | food_donation_project/donations/views.py:139-143 | A claim marked received is flagged and timed. Its donation, charity and claim time stay. |
| DonationSerializers.SaveClaim | food_donation_project/donations/serializers.py:72-83 | The claim serializer's create writes the target donation as claimed by the requester with no look at its status. It then inserts the claim, which succeeds exactly when the pair is free. The donation write survives a refused insert, and other tables are untouched. |
| DonationSerializers.SaveClaimIgnoresReadOnly | food_donation_project/donations/serializers.py:64 | Read-only keys of a claim body (charity, times, received flag) do not change what is saved. |
| DonationSerializers.RepeatedClaimWrite | food_donation_project/donations/views.py:108-111 | When the claim view repeats the serializer's donation write, only the claim time changes. |
| DonationViews.DecoratorClassesIgnored | food_donation_project/donations/views.py:52-61 | The effective gate of `my_donations`, `available` and `claimed` is authentication only. A donor may list available donations and a charity may call `my_donations`, which the decorators at food_donation_project/donations/views.py:150-169 would refuse. |
| DonationViews.AdminCannotCreateOrClaim | food_donation_project/donations/views.py:52-61 | An admin passes neither the create gate nor the claim and `mark_received` gates. |
| DonationViews.Visible | food_donation_project/donations/views.py:33-50 | Admins see every donation. Donors see their own. Charities see the available ones and those they hold. Other roles see none. |
| DonationViews.DetailAccess | food_donation_project/donations/views.py:33-61 | A detail action goes ahead exactly when the gate, the queryset lookup and the object check all pass. A refused gate is 403. An anonymous caller past the gate hits the queryset's `role` lookup and gets 500. A target outside the queryset is 404. |
| DonationViews.CreateDonation | food_donation_project/donations/views.py:63-70 | Only a verified donor creates. The refusal is never "verification required", because the gate answers first. A refused create stores nothing. A new donation is available and owned by the requester. Its listing is the validated one, so no text field, pickup instructions included, holds a null character. |
| DonationViews.CreateRefusals | food_donation_project/donations/views.py:52-70 | A wrong or unverified caller gets 403 with nothing stored. An invalid listing gets 400 with nothing stored. |
| DonationViews.CreateSucceedsIff | food_donation_project/donations/views.py:63-70 | A create succeeds exactly for a verified donor with a listing that validates. A listing with a null character in any text field, pickup instructions included, does not validate. |
| DonationViews.CreatedRow | food_donation_project/donations/serializers.py:47-50 | A successful create adds exactly one row, at the next id, owned by the requester and built from the validated listing. Nothing else changes. |
| DonationViews.CategoryOptionalOnCreate | food_donation_project/donations/models.py:46-51 | Leaving `category` out of a create is the same as sending it as null. A donation created that way has no category. |
| DonationViews.CreateIgnoresReadOnly | food_donation_project/donations/serializers.py:45-50 | The read-only keys of a create body (donor, charity, status, times) have no effect. |
| DonationViews.UpdateDonation | food_donation_project/donations/views.py:52-61 | Update goes through exactly when access is granted and the listing validates; pickup instructions with a null character do not. It never changes donor, charity, status or the three times of any donation, nor any other donation. A refused update stores nothing. A non-owner non-admin is always refused. |
| DonationViews.DestroyDonation | food_donation_project/donations/views.py:55-56 | The owner or an admin deletes the donation and, by cascade, its claims. Anything else changes nothing. |
| DonationViews.RetrieveDonation | food_donation_project/donations/views.py:33-60 | Retrieve answers 200 exactly for an authenticated caller and a donation in its queryset. |
| DonationViews.ClaimDonation | food_donation_project/donations/views.py:72-119 | A claim is created exactly for a verified charity, an available donation, a valid body and a free (donation, charity) pair. A valid body names an existing donation, has no past pickup time and has notes without a null character. On success the donation becomes claimed by the caller and the claim row is added. An unavailable donation the caller holds gives 400; one another charity holds is hidden and gives 404. Both store nothing. A taken pair gives 500 after the donation write. |
| DonationViews.FlipClaims | food_donation_project/donations/views.py:139-145 | The claims of the donation by the caller are marked received, and no other claim changes. With no such claim the table is unchanged. |
| DonationViews.MarkReceived | food_donation_project/donations/views.py:121-148 | Marking received succeeds exactly for a verified charity holding a claimed donation. It writes the donation and the matching claims, if any. Everything else is a no-op, and 400 when the caller holds the donation in another status. |
| DonationViews.MyDonations | food_donation_project/donations/views.py:150-155 | `my_donations` lists exactly the donations whose donor is the caller, for any authenticated role. |
| DonationViews.AvailableList | food_donation_project/donations/views.py:157-162 | `available` lists exactly the available donations, for any authenticated role. |
| DonationViews.ClaimedList | food_donation_project/donations/views.py:164-169 | `claimed` lists exactly the donations whose charity is the caller, whatever their status. |
| DonationViews.ListDonations | food_donation_project/donations/models.py:72 | `list` returns each donation of the caller's queryset once, newest-created first. |
| DonationViews.DestroyFoodCategory | food_donation_project/donations/views.py:15-26 | An admin deletes an existing food category. Donations and waste logs referring to it stay, with a null category, and nothing else changes. A non-admin gets 403 and a missing category 404, with nothing changed. |
| ClaimViews.ClaimMarkReceivedGateIsAuthentication | food_donation_project/donations/views.py:193-200 | The claims endpoint's `mark_received` is gated by authentication alone. It admits the unverified charities and the donors its decorator at food_donation_project/donations/views.py:202 would refuse. |
| ClaimViews.VisibleClaims | food_donation_project/donations/views.py:176-191 | Admins see all claims. Donors see the claims on their donations. Charities see their own claims. Other roles see none. |
| ClaimViews.ClaimDetailAccess | food_donation_project/donations/views.py:176-200 | A claim detail action goes ahead exactly when gate, queryset and object check pass. The refusals are 403, 500 and 404, as for donations. |
| ClaimViews.ClaimEditsAdminOnly | food_donation_project/donations/views.py:196-197 | Update and destroy of a claim are open to admins only, since no claim has a `user` or `donor` attribute. |
| ClaimViews.CreateClaimAsWritten | food_donation_project/donations/serializers.py:72-83 | Creating a claim through the claims endpoint writes the donation as claimed by the caller for any valid body, whatever its status. A valid body names an existing donation, has no past pickup time and has notes without a null character. |
| ClaimViews.CreateClaimChecked | food_donation_project/donations/views.py:84-88 | The corrected create succeeds exactly when the claim action would: verified charity, valid body (notes without a null character included), available donation, free pair. On refusal it stores nothing. |
| ClaimViews.ClaimEndpointRegressesReceived | food_donation_project/donations/serializers.py:76-81 | Through the claims endpoint a received donation goes back to claimed, with a new charity and claim time. The corrected create answers 400 instead. |
| ClaimViews.MarkClaimReceived | food_donation_project/donations/views.py:202-226 | The claims endpoint's `mark_received` succeeds exactly for the claim's own charity, whatever its verification and whatever the donation's status. It writes both rows. |
| ClaimViews.MarkClaimReceivedChecked | food_donation_project/donations/views.py:121-148 | The corrected action succeeds exactly for a verified charity whose claim's donation it holds in status claimed. On refusal it stores nothing. |
| ClaimViews.UnverifiedCharityMarksReceived | food_donation_project/donations/views.py:193-226 | An unverified charity marks its own claim, and the donation, received. The corrected action refuses with 403. |
| ClaimViews.RemarkMovesReceivedAt | food_donation_project/donations/views.py:214-223 | Marking the same claim again moves both receipt times to the later call. The corrected action refuses the second call with 400. |
| ClaimViews.DestroyClaimAction | food_donation_project/donations/views.py:196-197 | An admin deletes a claim. The donation keeps its status and charity. |
| ClaimViews.ListClaimsAction | food_donation_project/donations/models.py:92 | The claim list holds each visible claim once, newest-claimed first. |
| ClaimViews.RetrieveClaimAction | food_donation_project/donations/views.py:176-200 | Retrieve answers 200 exactly for an authenticated caller and a claim in its queryset. |
| Lifecycle.ProgressTransitive | food_donation_project/donations/models.py:19-29 | Two steps that each make progress together make progress. |
| Lifecycle.OneClaimPerDonation | food_donation_project/donations/models.py:93 | Under the invariant a donation carries at most one claim, the one of its holder. |
| Lifecycle.CreatePreserves | food_donation_project/donations/views.py:63-70 | Creating a donation keeps the invariant and makes progress. |
| Lifecycle.UpdatePreserves | food_donation_project/donations/serializers.py:45 | Updating a donation keeps the invariant and makes progress, since status, charity and times are read-only. |
| Lifecycle.DestroyPreserves | food_donation_project/donations/models.py:76 | Deleting a donation and its claims keeps the invariant. |
| Lifecycle.ClaimPreserves | food_donation_project/donations/views.py:72-119 | The claim action keeps the invariant and makes progress, its 500 branch included. |
| Lifecycle.ClaimStepKeeps | food_donation_project/donations/views.py:104-111 | Writing an available, unclaimed donation as claimed, with or without a new claim row for its holder, keeps the invariant and makes progress. |
| Lifecycle.MarkReceivedPreserves | food_donation_project/donations/views.py:121-148 | Marking a donation received keeps the invariant and makes progress. |
| Lifecycle.CreateClaimPreserves | food_donation_project/donations/views.py:84-88 | The corrected claim creation keeps the invariant and makes progress. |
| Lifecycle.MarkClaimReceivedPreserves | food_donation_project/donations/views.py:127-131 | The corrected claim-side `mark_received` keeps the invariant and makes progress. |
| Lifecycle.DestroyClaimPreserves | food_donation_project/donations/views.py:196-197 | Deleting a claim keeps the invariant. |
| Lifecycle.StepPreserves | food_donation_project/donations/views.py:28-226 | Every donation and claim request keeps the invariant and makes progress. |
| Lifecycle.RunPreserves | food_donation_project/donations/views.py:28-226 | Any sequence of requests keeps the invariant, and every donation ends no earlier in its lifecycle than it started. |
| Lifecycle.EmptyInv | food_donation_project/donations/models.py:15-93 | The empty store satisfies the invariant. |
| Lifecycle.ClaimEndpointBreaksProgress | food_donation_project/donations/serializers.py:72-83 | The as-written claims endpoint moves a received donation backwards. |
| Lifecycle.RemarkBreaksProgress | food_donation_project/donations/views.py:202-226 | The as-written claim-side `mark_received` rewrites the receipt time of a received donation. |
| Lifecycle.DeleteHolderBreaksInv | food_donation_project/donations/models.py:36-42 | Deleting the charity that holds a claimed donation leaves it claimed with a null charity, which the invariant forbids. |
| Lifecycle.MarkReceivedWithoutClaim | food_donation_project/donations/views.py:139-145 | After an admin deletes a claim, the holder still marks the donation received. No claim is touched, since a missing claim is ignored. |
| Accounts.SerializerFor | food_donation_project/accounts/views.py:20-23 | The admin serializer is chosen exactly for an authenticated admin. |
| Accounts.UserGateTable | food_donation_project/accounts/views.py:25-34 | Listing and retrieving users is for admins. Registration is for anyone. Updating the caller's own profile and changing the caller's password need authentication. Update and destroy of a user row pass the object check only for admins. |
| Accounts.ApplyUserPatch | food_donation_project/accounts/serializers.py:7-30 | Both serializers write the profile text and the role, and never the id or the password. The verification flag, join date and account flags change only through the admin serializer. |
| Accounts.UpdateProfile | food_donation_project/accounts/views.py:48-54 | For a caller that is its own stored row, `update_profile` changes exactly that row and adds or removes none. A non-admin's verification flag is kept. A refusal changes nothing. |
| Accounts.SelfServiceLimits | food_donation_project/accounts/serializers.py:18 | A non-admin cannot verify itself through `update_profile`, and yet can make itself admin, since `role` is writable. The corrected `UpdateProfileChecked` keeps the role. |
| Accounts.UpdateProfileChecked | food_donation_project/accounts/serializers.py:18 | With `role` read-only for non-admins, `update_profile` changes exactly the caller's profile text and keeps the set of users. A non-admin keeps their role and verification, and every other row is unchanged. |
| Accounts.UpdateProfileCheckedAgrees | food_donation_project/accounts/views.py:48-54 | The correction changes nothing for a body without a role, nor for an admin. |
| Accounts.UpdateUserRow | food_donation_project/accounts/views.py:28-29 | Update of a user row succeeds only for an admin on an existing row. Another user gets 403, because a user row has no owner attribute. |
| Accounts.DestroyUserRow | food_donation_project/accounts/views.py:28-29 | An admin deletes a user row, with the cascades of deleting a user. Anything else changes nothing. |
| Accounts.CheckPasswordChange | food_donation_project/accounts/serializers.py:64-74 | An accepted body has all three passwords, non-blank after trimming and free of null characters, with equal new values the validators accept. A mismatch means the trimmed new values differ. |
| Accounts.ChangePassword | food_donation_project/accounts/views.py:56-72 | The password changes, with 200, exactly when the body validates and the old password is right. Only the caller's row changes, and the set of users stays the same. A mismatch is 400 "passwords differ" and a wrong old password 400 "wrong password". A refusal changes nothing. |
| Accounts.CheckTrimmedPasswords | food_donation_project/accounts/serializers.py:67-73 | Already-trimmed non-blank values the validators accept pass the serializer unchanged. |
| Accounts.AcceptedPasswordTrimmed | food_donation_project/accounts/serializers.py:68 | An accepted new password is non-blank and already trimmed. |
| Accounts.ChangePasswordApplies | food_donation_project/accounts/views.py:63-70 | A body that checks out with the caller's password as the old one is applied with 200. |
| Accounts.ChangePasswordUndo | food_donation_project/accounts/views.py:56-72 | Changing the password and then changing it back restores the store exactly. |
| Accounts.CheckRegistration | food_donation_project/accounts/serializers.py:46-54 | An accepted registration has non-blank, equal (trimmed) passwords without null characters that the validators accept. A charity also has a non-blank organization name. |
| Accounts.Register | food_donation_project/accounts/views.py:82-97 | Registration creates exactly one user, at the next id, unverified, with the trimmed password and the chosen or default role. The response carries only id, email, names, role and a message. A refusal is 400 and stores nothing. |
| Accounts.PasswordCheckFirst | food_donation_project/accounts/serializers.py:46-52 | When the passwords differ and a charity's organization name is missing, only the password error is reported. |
| Accounts.RegisteredBodyHidesPassword | food_donation_project/accounts/views.py:87-95 | Two registrations that differ only in their passwords get the same response body. |
| Accounts.RegistrationAccepted | food_donation_project/accounts/serializers.py:46-54 | The converse of `CheckRegistration`: a complete, consistent body with a role choice is accepted. |
| Accounts.RegisteredPasswordWorks | food_donation_project/accounts/serializers.py:56-62 | The password a user registers with is the one `change_password` then accepts as the old password; `password2` is not stored. |
| Fields.OptionalChar | food_donation_project/waste_tracking/models.py:38-73 | An optional nullable text field stores null, or the trimmed text when it holds no null character and is within its length. It keeps its value when the key is absent. |
| WasteSerializers.Reference | food_donation_project/waste_tracking/models.py:41-52 | A nullable category reference accepts null or an existing key, and keeps its value when absent. |
| WasteSerializers.EmptyEntryPatchKeeps | food_donation_project/waste_tracking/serializers.py:12-26 | A partial update that submits nothing leaves the waste entry unchanged. |
| WasteSerializers.FullEntryIff | food_donation_project/waste_tracking/models.py:37-53 | A create or full update of a waste log is valid exactly when these hold: food name, quantity, type and date are submitted and valid; the submitted categories exist; and the optional texts hold no null character. |
| WasteSerializers.FullEntryDefaults | food_donation_project/waste_tracking/models.py:38-56 | On create the unsubmitted optional attributes (description, notes, both categories) are null. |
| WasteSerializers.ApplyEntryKeepsAbsent | food_donation_project/waste_tracking/models.py:38-56 | On any accepted update, PUT or PATCH, an optional attribute the body leaves out keeps its stored value. On a PATCH the required ones do too. |
| WasteSerializers.ApplyEntryStores | food_donation_project/waste_tracking/models.py:37-56 | Submitted values are stored as validated. Food name and quantity are trimmed and within their length. Description and notes are trimmed, or null when null was sent. Type and date are stored as sent. Both categories are stored as sent, and a newly set one exists. |
| WasteSerializers.NewWasteLog | food_donation_project/waste_tracking/serializers.py:28-31 | A created waste log belongs to the requester and holds the validated entry. |
| WasteSerializers.WasteCategoryName | food_donation_project/waste_tracking/serializers.py:15 | `waste_category_name` is present exactly when the log's waste category exists, and is that category's name. |
| WasteSerializers.FoodCategoryName | food_donation_project/waste_tracking/serializers.py:16 | `food_category_name` is present exactly when the log's food category exists, and is that category's name. |
| WasteSerializers.DeleteWasteCategoryProjection | food_donation_project/waste_tracking/models.py:41-46 | After a waste category is deleted, the logs that named it show no category name. The others show the same name as before. |
| WasteSerializers.DeleteFoodCategoryProjection | food_donation_project/waste_tracking/models.py:47-52 | The same for food categories. |
| WasteSerializers.ApplyReduction | food_donation_project/waste_tracking/models.py:71-74 | A reduction stores trimmed non-blank title (at most 255) and description. `amount_saved` is optional, at most 100. A create or PUT needs title, description and date. |
| WasteSerializers.FullReductionIff | food_donation_project/waste_tracking/models.py:71-74 | A create or PUT of a reduction is valid exactly when title, description and date are submitted valid and a submitted `amount_saved` has no null character and is at most 100 long. |
| WasteSerializers.ApplyReductionKeepsAbsent | food_donation_project/waste_tracking/models.py:73 | On any accepted update, an absent `amount_saved` keeps its stored value. On a PATCH an absent title, description or date does too. |
| WasteSerializers.AmountSavedOptional | food_donation_project/waste_tracking/models.py:73 | A reduction without `amount_saved` is valid and stores it as null. |
| WasteSerializers.NewReduction | food_donation_project/waste_tracking/serializers.py:44-47 | A created reduction belongs to the requester. |
| WasteViews.WasteGateTable | food_donation_project/waste_tracking/views.py:39-46 | Creating logs is for admins (verified or not) and verified donors. A charity is always refused. `my_logs` and `stats` need only authentication. |
| WasteViews.LogsVisible | food_donation_project/waste_tracking/views.py:29-37 | Admins see every waste log, every other role its own. |
| WasteViews.ReductionsVisible | food_donation_project/waste_tracking/views.py:95-103 | Admins see every reduction entry, every other role its own. |
| WasteViews.LogAccess | food_donation_project/waste_tracking/views.py:29-46 | A log detail action goes ahead exactly when gate, queryset and object check pass. An anonymous caller past the gate gets 500. |
| WasteViews.ReductionAccess | food_donation_project/waste_tracking/views.py:95-112 | The same for reduction entries. |
| WasteViews.EditAccessIsOwnership | food_donation_project/waste_tracking/views.py:42-43 | Update and destroy reach a log exactly when it exists and the caller is an admin or its `user`. |
| WasteViews.CreateLog | food_donation_project/waste_tracking/views.py:48-55 | A log is created exactly for an admin or verified donor with a valid entry. The refusal is 403 permission denied, never "verification required". The new log, at the next id, belongs to the caller. A refusal stores nothing. |
| WasteViews.CreateLogIgnoresReadOnly | food_donation_project/waste_tracking/serializers.py:26 | The read-only keys of a create body (`user`, times, category names) have no effect. |
| WasteViews.UpdateLog | food_donation_project/waste_tracking/views.py:42-43 | An update rewrites only the entry and update time of the one log, with the validated body applied to the stored entry, so absent optional attributes are kept on a PUT. It keeps owner and creation time, and a non-owner non-admin is refused. |
| WasteViews.DestroyLog | food_donation_project/waste_tracking/views.py:42-43 | The owner or an admin deletes the log and nothing else. |
| WasteViews.RetrieveLog | food_donation_project/waste_tracking/views.py:29-37 | Retrieve answers 200 exactly for a log in the caller's queryset. Another user's log is 404 to a non-admin. |
| WasteViews.CreateReduction | food_donation_project/waste_tracking/views.py:114-121 | A reduction is created exactly for an admin or verified donor with a valid entry. The new row at the next id holds the validated entry, is owned by the caller and is dated now. A refusal stores nothing. |
| WasteViews.CreateReductionIgnoresReadOnly | food_donation_project/waste_tracking/serializers.py:42 | The read-only keys of a reduction body (`user`, `created_at`) have no effect. |
| WasteViews.UpdateReduction | food_donation_project/waste_tracking/views.py:108-109 | An update rewrites only the one entry, with the validated body applied to the stored entry, so an absent `amount_saved` is kept on a PUT. It keeps the owner and creation time. |
| WasteViews.DestroyReduction | food_donation_project/waste_tracking/views.py:108-109 | The owner or an admin deletes the entry and nothing else. |
| WasteViews.SortByDate | food_donation_project/waste_tracking/models.py:62 | Each key appears once, latest date first. |
| WasteViews.ListLogs | food_donation_project/waste_tracking/models.py:62 | The log list holds each log of the caller's queryset once, latest date first. |
| WasteViews.MyLogs | food_donation_project/waste_tracking/views.py:57-62 | `my_logs` returns exactly the caller's own logs, for admins too, latest first. |
| WasteViews.ListReductions | food_donation_project/waste_tracking/models.py:81 | The reduction list holds each entry of the caller's queryset once, latest date first. |
| WasteViews.MyReductions | food_donation_project/waste_tracking/views.py:123-128 | `my_reductions` returns exactly the caller's own entries, for admins too. |
| WasteViews.Summarize | food_donation_project/waste_tracking/views.py:64-88 | `total_logs` is the number of logs. Each group's count is the number of logs with that key, and is positive. Each grouping sums to `total_logs`. Types and months come in ascending order, and category names once each. |
| WasteViews.TypeTotals | food_donation_project/waste_tracking/views.py:74-76 | The counts per waste type add up to the number of logs. |
| WasteViews.MonthTotals | food_donation_project/waste_tracking/views.py:80-85 | The counts per month add up to the number of logs. |
| WasteViews.CategoryTotals | food_donation_project/waste_tracking/views.py:77-79 | The counts per category name, null included, add up to the number of logs. |
| WasteViews.TypesAscending | food_donation_project/waste_tracking/views.py:74-76 | The waste types come out in ascending order of their stored values. |
| WasteViews.MonthsAscending | food_donation_project/waste_tracking/views.py:80-85 | The months come out in ascending order. |
| WasteViews.StatsAction | food_donation_project/waste_tracking/views.py:64-88 | `stats` covers exactly the caller's own logs, whatever the role, and summarizes them. |
| WasteViews.DestroyWasteCategory | food_donation_project/waste_tracking/views.py:11-22 | An admin deletes an existing waste category. The logs referring to it stay, with a null category, and nothing else changes. A non-admin gets 403 and a missing category 404, with nothing changed. |
| Grouping.Groups | food_donation_project/waste_tracking/views.py:74-85 | Each group is a key with its positive count. Every key that occurs appears. |
| Grouping.GroupsSumToTotal | food_donation_project/waste_tracking/views.py:73-85 | When every row's key is among the distinct keys, the group counts sum to the number of rows. |
| Grouping.GroupsAscending | food_donation_project/waste_tracking/views.py:76-85 | Keys listed in ascending order come out in ascending order. |
| Grouping.GroupsDistinct | food_donation_project/waste_tracking/views.py:77-79 | Keys listed once each are grouped once each. |
| Grouping.Dedup | food_donation_project/waste_tracking/views.py:77-79 | The distinct values list each value of the input once, and nothing else. |
| Ordering.MaxByKey | food_donation_project/donations/models.py:72 | The member picked is one whose sort key is largest. |
| Ordering.SortDescending | food_donation_project/donations/models.py:72 | Each member appears once, largest key first. |
| Selection.Select | frontend/src/pages/charity/AvailableDonations.tsx:197 | `Array.filter` returns no more elements than its input, all passing the test. |
| Selection.SelectIsSubsequence | frontend/src/pages/charity/AvailableDonations.tsx:197 | `filter` keeps the input order. |
| Selection.SelectMembers | frontend/src/pages/charity/AvailableDonations.tsx:197 | An element is kept exactly when it is in the input and passes the test. |
| Selection.SelectAll | frontend/src/pages/charity/AvailableDonations.tsx:189-194 | When every element passes, `filter` returns its input. |
| RouteGuard.Guard | frontend/src/components/ProtectedRoute.tsx:12-42 | While loading the guard shows the placeholder, and an anonymous session goes to `/login`. A signed-in session renders exactly when no roles are listed, there is no user record, or the role is listed. A refused user goes to their role's dashboard, or to `/login` for an unknown role. |
| RouteGuard.RedirectLands | frontend/src/components/ProtectedRoute.tsx:27-38 | A refused user with a known role is sent to a dashboard whose own guard, under the application's route table (frontend/src/App.tsx:44-91), lets them in. An unknown role lands on the unguarded login page. |
| RouteGuard.AreaAdmitsOnlyItsRole | frontend/src/App.tsx:44-91 | Each guarded area, its bare parent path included, admits exactly the role it is named after. |
| RouteGuard.ChoiceRolesHaveDashboards | frontend/src/components/ProtectedRoute.tsx:29-35 | Each of the three role choices has a dashboard, lying in the area of that role. |
| RouteGuard.GuardMonotone | frontend/src/components/ProtectedRoute.tsx:27 | Listing more roles never turns away a user who was let in. |
| AvailableDonations.CardOf | food_donation_project/donations/serializers.py:29-45 | A card shows the stored donation's id and category (null once the category was deleted), and donor details exactly when the donor exists. |
| AvailableDonations.FilteredIsSelection | frontend/src/pages/charity/AvailableDonations.tsx:197-215 | The shown cards are exactly the listed ones passing all four tests, in the server's order. |
| AvailableDonations.ClearedShowsAll | frontend/src/pages/charity/AvailableDonations.tsx:189-194 | After `clearFilters` every card is shown. |
| AvailableDonations.CategoryFilterExact | frontend/src/pages/charity/AvailableDonations.tsx:205 | Choosing the option of category `k` keeps exactly the cards of category `k`. |
| AvailableDonations.LowerIdempotent | frontend/src/pages/charity/AvailableDonations.tsx:200-203 | Lower-casing twice is lower-casing once. |
| AvailableDonations.SearchIgnoresCase | frontend/src/pages/charity/AvailableDonations.tsx:198-203 | The search gives the same answer for a term and its lower-case form. |
| AvailableDonations.FilterAsWrittenAgrees | frontend/src/pages/charity/AvailableDonations.tsx:205 | The page's filter throws exactly when a category is chosen and some card has a null category. Otherwise it shows the corrected filter's cards. |
| AvailableDonations.NullCategoryThrows | frontend/src/pages/charity/AvailableDonations.tsx:205 | A concrete card with a null category under a chosen category makes the filter throw. |
| AvailableDonations.DeletedCategoryThrows | food_donation_project/donations/models.py:46-51 | After an admin deletes a food category, a donation of that category makes the page's filter throw under any chosen category. The corrected filter hides it. |
| AvailableDonations.SubmitClaim | frontend/src/pages/charity/AvailableDonations.tsx:147-187 | A request is sent exactly when a card is selected and the user is verified. An unverified user only gets the error. Success removes exactly the claimed card and resets and closes the dialog. Failure shows the server's detail or the fallback message and keeps the rest. |
| AvailableDonations.RemoveClaimed | frontend/src/pages/charity/AvailableDonations.tsx:165 | After a claim the list holds exactly the other cards. |
| AvailableDonations.ClientCheckMatchesServer | frontend/src/pages/charity/AvailableDonations.tsx:150-153 | For a charity, the page refuses to send exactly when the server's claim action would answer 403. |
| RegisterPage.CheckRegisterForm | frontend/src/pages/Register.tsx:123-136 | The first failing check wins. A required input that JavaScript's `trim` empties is "fill in", differing passwords is "do not match", and a charity with an empty organization name is "organization required". The form passes exactly when none applies. |
| RegisterPage.Payload | frontend/src/pages/Register.tsx:141-155 | The body carries both passwords as typed and the organization name for every role. It carries no verification, staff or superuser flag. |
| RegisterPage.SubmitRegister | frontend/src/pages/Register.tsx:119-186 | A form the client refuses is not sent. A sent form is reset to its initial state (empty, role donor) exactly when the account was created. |
| RegisterPage.ClientPassedNeverMismatch | frontend/src/pages/Register.tsx:128-131 | A form the client lets through is never refused by the server for differing passwords. |
| RegisterPage.BlankOrganizationCaughtByServer | frontend/src/pages/Register.tsx:133-136 | A charity whose organization name is only whitespace passes the client, which does not trim it. If the password survives the server's trimming, the server refuses the registration for want of an organization name. |
| RegisterPage.ClientPassedCreates | frontend/src/pages/Register.tsx:119-173 | A form the client lets through creates the account when it also has a role choice, a real organization name for a charity, and an acceptable password that the server does not strip to nothing. The password is stored trimmed, with the chosen role, and the form is reset. |
| RegisterPage.BlankPasswordRefusedTwice | frontend/src/pages/Register.tsx:123-126 | A password of characters that both languages count as whitespace is refused by the client and by the server alike. |
| RegisterPage.SeparatorPasswordRefusedByServer | frontend/src/pages/Register.tsx:123-126 | The two languages disagree on the information separators. A password of U+001F passes the client's blank test, and the server strips it to nothing and refuses it. |
| PasswordPage.CheckPasswordForm | frontend/src/pages/Profile.tsx:405-414 | The mismatch message comes exactly for differing new passwords. The length message comes for equal ones under 8 characters. The form passes otherwise. |
| PasswordPage.Request | frontend/src/pages/Profile.tsx:419 | The request sends the old password and the new one as both new passwords. |
| PasswordPage.SubmitPassword | frontend/src/pages/Profile.tsx:400-433 | A refused form is not sent. A sent one clears the inputs and closes the dialog exactly when the server accepts the change, and otherwise stays as it was. |
| PasswordPage.SentNeverMismatch | frontend/src/pages/Profile.tsx:419 | Because the page repeats the new value, the server never refuses a sent change for differing new passwords. |
| PasswordPage.RightOldPasswordChanges | frontend/src/pages/Profile.tsx:416-426 | With the right old password and an acceptable new one, the change goes through. The stored password becomes the trimmed new value and the dialog closes cleared. |
| PasswordPage.PaddingCountsTowardMinimum | frontend/src/pages/Profile.tsx:411-414 | The client counts leading spaces toward the 8-character minimum while the server stores the trimmed value. So a shorter password padded with spaces is set. |

## Left out

- JWT issuance and refresh, the axios interceptors and the auth context's error formatting: network and token plumbing. A failed request is reduced to the server's `detail` or its absence (`AvailableDonations.ClaimReply`).
- Password hashing: a password is stored as the trimmed string. `check_password` is equality. Django's `validate_password` is the parameter `acceptable`.
- The user model's own field validation (email format and uniqueness, choices of other columns) is the boolean parameter `fieldsValid`, because the user model is not part of this model.
- Latitude, longitude and the registration form's progress percentage: decimal and floating-point display values.
- The `me` endpoint: it only serializes the caller.
- The nested `*_details` serializers and JSON rendering: responses are tagged values.
- Create and update of food and waste categories: only their permission gate and deletion (with its `SET_NULL` effects) are modelled.
- An admin's update of a claim row: only its permission gate is modelled (`ClaimViews.ClaimEditsAdminOnly`).
- Transactions and concurrency: requests are applied one at a time, so races between concurrent claims are not captured.
- The claim action's 500 branch catches any exception. Only the one it can meet in this model is modelled, the integrity error of a repeated (donation, charity) pair.
- Wall-clock time and time zones: the clock is a natural number. Dates are (year, month, day) triples. `EXTRACT(month FROM date)` is the month field.
- The expiry filter of the available-donations page compares dates only. The time-of-day and time-zone effects of JavaScript's `new Date` parsing are not modelled.
- Text is a sequence of characters. `toLowerCase` is modelled on ASCII letters only. JavaScript's UTF-16 `length` is the sequence length. The whitespace classes are taken from Unicode's White_Space property as the two languages use it: Python's `str.isspace` for DRF's trimming, and JavaScript's WhiteSpace and LineTerminator for `trim`. The model does not follow changes to these classes in later Unicode versions.
- WasteViews.Summarize: the groups of `by_category` are listed once each in order of first occurrence, not ordered by name, because the database's collation of names is not modelled.
- The claim dialog converts a filled pickup time with `new Date(...).toISOString()` before posting it (frontend/src/pages/charity/AvailableDonations.tsx:160). The model sends the input's text, because date parsing and time zones are not modelled.
- DRF also refuses lone surrogate code points in text. Dafny characters are Unicode scalar values, which cannot be surrogates, so that check has no counterpart.
- The page navigations scheduled with `setTimeout` after a registration or a claim, and the loading spinners: presentation.
- All other pages, layouts and dashboards: presentation and display aggregates.
- A user's `is_active`, `is_staff` and `is_superuser` flags are stored and written by the admin serializer. Nothing in the model reads them.

## Findings

| source | as written | input that shows it | evidently intended | confidence | as-written member | corrected member |
|---|---|---|---|---|---|---|
| food_donation_project/donations/views.py:193-200 | `get_permissions` gates the claims endpoint's `mark_received` with `IsAuthenticated`. The decorator's `IsVerifiedCharity` is never consulted. | An unverified charity posts `mark_received` on its own claim and the donation becomes received. | Only a verified charity marks its claim received, as on the donations endpoint. | high, not executed | ClaimViews.UnverifiedCharityMarksReceived | ClaimViews.MarkClaimReceivedChecked |
| food_donation_project/donations/serializers.py:72-83 | Claim creation through the claims endpoint writes the donation as claimed with no look at its status. | A verified charity posts a claim for a received donation it does not hold, and the donation goes back to claimed under that charity. | A claim is only created for an available donation, as the claim action checks at food_donation_project/donations/views.py:84-88. | high, not executed | ClaimViews.ClaimEndpointRegressesReceived | ClaimViews.CreateClaimChecked |
| food_donation_project/donations/views.py:208-223 | The claims endpoint's `mark_received` checks only the claim's charity, not the donation's status. | Posting `mark_received` twice on the same claim rewrites both receipt times to the second call's time. | Only a claimed donation is marked received, as the donations endpoint checks at food_donation_project/donations/views.py:127-131. | high, not executed | ClaimViews.RemarkMovesReceivedAt | ClaimViews.MarkClaimReceivedChecked |
| frontend/src/pages/charity/AvailableDonations.tsx:205 | The category test calls `donation.category.toString()`, but the category is nullable and is nulled when its category is deleted (food_donation_project/donations/models.py:46-51). | An admin deletes a category, and a charity then picks any category in the filter: the page throws while rendering. | A donation without a category simply fails a chosen category filter. | medium, not executed | AvailableDonations.DeletedCategoryThrows | AvailableDonations.CategoryFilterExact |
| food_donation_project/accounts/serializers.py:18 | `UserSerializer` lists `id`, `date_joined` and `is_verified` as read-only but not `role`, and `update_profile` uses it for every non-admin caller. | A verified donor sends `{"role": "admin"}` to `update_profile` and becomes an admin, passing every admin gate from then on. | A user cannot change their own role, as they cannot change their verification. The profile page only displays the role. | medium, not executed | Accounts.SelfServiceLimits | Accounts.UpdateProfileChecked |
