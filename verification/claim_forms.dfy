/**
 * The two ways a claim is filed: by a visitor on an item's page, and by staff
 * on the add-claim page on a claimant's behalf. Both check their form, then
 * write one `claims` row.
 */
module ClaimForms {
  import opened Wrappers
  import opened Text
  import opened Schema
  import Seqs

  // ---------------------------------------------------------------- item page

  /** The viewer owns the item when signed in with the id the item was reported under. */
  function IsOwner(viewer: Option<string>, it: Item): (owner: bool)
    ensures viewer.None? || it.userId.None? ==> !owner
    ensures owner ==> it.userId == viewer
  {
    viewer.Some? && it.userId == Some(viewer.value)
  }

  /** The claim form is shown to anyone but the owner, and only for an item still lost or found. */
  function CanClaim(viewer: Option<string>, it: Item): (can: bool)
    ensures can ==> it.status == Lost || it.status == Found
    ensures it.userId.None? ==> (can <==> it.status == Lost || it.status == Found)
  {
    !IsOwner(viewer, it) && (it.status == Lost || it.status == Found)
  }

  /** A signed-out viewer owns nothing, so may claim any lost or found item, anonymous ones included. */
  lemma SignedOutViewerMayClaimOpenItems(it: Item)
    ensures !IsOwner(None, it)
    ensures CanClaim(None, it) <==> it.status.Lost? || it.status.Found?
  {
  }

  /** Claimed and returned items take no more claims, and the owner never sees the form. */
  lemma ClosedOrOwnItemsTakeNoClaims(viewer: Option<string>, it: Item)
    ensures it.status.Claimed? || it.status.Returned? ==> !CanClaim(viewer, it)
    ensures viewer.Some? && it.userId == viewer ==> !CanClaim(viewer, it)
  {
  }

  /** The item page's claim form. */
  datatype ClaimForm = ClaimForm(message: string, firstName: string, lastName: string, phone: string, email: string)

  const EmptyClaimForm: ClaimForm := ClaimForm("", "", "", "", "")

  const NeedMessage: string := "Please provide a message explaining why this is yours"
  const NeedContact: string := "Please provide either email or phone number"

  /**
   * `handleClaim`'s checks and row: a message that is blank once trimmed is refused first,
   * then a form with neither email nor phone. The row stores the trimmed message, empty
   * names and contacts as null, and leaves both statuses to the database.
   */
  function ClaimRequest(itemId: string, viewer: Option<string>, f: ClaimForm): (r: Result<ClaimInsert, string>)
    ensures Trim(f.message) == "" ==> r == Err(NeedMessage)
    ensures Trim(f.message) != "" && f.email == "" && f.phone == "" ==> r == Err(NeedContact)
    ensures r.Ok? <==> Trim(f.message) != "" && (f.email != "" || f.phone != "")
    ensures r.Ok? ==> r.value.itemId == itemId && r.value.message == Trim(f.message)
    ensures r.Ok? ==> r.value.claimantId == (if viewer.Some? then OrNull(viewer.value) else None)
    ensures r.Ok? ==> r.value.firstName == OrNull(f.firstName) && r.value.lastName == OrNull(f.lastName)
    ensures r.Ok? ==> r.value.email == OrNull(f.email) && r.value.phone == OrNull(f.phone)
    ensures r.Ok? ==> r.value.status.None? && r.value.verificationStatus.None?
    ensures r.Ok? ==> r.value.lostDate.None? && r.value.lostLocation.None? && r.value.venue.None?
  {
    if Trim(f.message) == "" then Err(NeedMessage)
    else if f.email == "" && f.phone == "" then Err(NeedContact)
    else
      Ok(ClaimInsert(itemId, if viewer.Some? then OrNull(viewer.value) else None,
        OrNull(f.firstName), OrNull(f.lastName), OrNull(f.phone), OrNull(f.email),
        Trim(f.message), None, None, None, None, None))
  }

  /** A stored message is never blank and is already trimmed, and the claimant can be reached. */
  lemma ClaimRowIsWellFormed(itemId: string, viewer: Option<string>, f: ClaimForm)
    requires ClaimRequest(itemId, viewer, f).Ok?
    ensures Trim(ClaimRequest(itemId, viewer, f).value.message) == ClaimRequest(itemId, viewer, f).value.message != ""
    ensures Truthy(ClaimRequest(itemId, viewer, f).value.email) || Truthy(ClaimRequest(itemId, viewer, f).value.phone)
  {
    TrimIdempotent(f.message);
  }

  /** A message of nothing but an ideographic space is blank to `trim`, so it is refused. */
  lemma IdeographicSpaceIsBlank(itemId: string, viewer: Option<string>, f: ClaimForm)
    requires f.message == "\U{3000}"
    ensures ClaimRequest(itemId, viewer, f) == Err(NeedMessage)
  {
    assert TrimStart(f.message) == "";
  }

  /** The Submit button is enabled only when not submitting, with a non-blank message and an email. */
  function SubmitEnabled(f: ClaimForm, submitting: bool): (enabled: bool)
    ensures submitting ==> !enabled
    ensures enabled ==> Trim(f.message) != "" && f.email != ""
    ensures !submitting && f.email != "" && (exists k :: 0 <= k < |f.message| && !IsSpace(f.message[k])) ==> enabled
  {
    TrimEmptyIffBlank(f.message);
    !submitting && Trim(f.message) != "" && f.email != ""
  }

  /** The button is stricter than the handler: whatever it lets through, the handler accepts. */
  lemma EnabledSubmitIsAccepted(itemId: string, viewer: Option<string>, f: ClaimForm, submitting: bool)
    requires SubmitEnabled(f, submitting)
    ensures ClaimRequest(itemId, viewer, f).Ok?
  {
  }

  /** The handler would accept a phone number alone, which the button never lets through. */
  lemma PhoneOnlyClaimNeedsTheHandler()
    ensures ClaimRequest("i1", None, ClaimForm("mine", "", "", "555", "")).Ok?
    ensures !SubmitEnabled(ClaimForm("mine", "", "", "555", ""), false)
  {
    assert Trim("mine") == "mine";
  }

  /** What the item page shows after a submission attempt, and the form it keeps. */
  datatype Feedback = Feedback(success: bool, message: string, form: ClaimForm)

  /**
   * The end of `handleClaim`: a refused form keeps its contents; a failed insert reports
   * the database's message (or a fallback); a stored claim clears the form.
   */
  function AfterClaim(itemId: string, viewer: Option<string>, f: ClaimForm, insertError: Option<string>): (fb: Feedback)
    ensures fb.success <==> ClaimRequest(itemId, viewer, f).Ok? && insertError.None?
    ensures fb.success ==> fb.form == EmptyClaimForm
    ensures !fb.success ==> fb.form == f
    ensures ClaimRequest(itemId, viewer, f).Err? ==> fb.message == ClaimRequest(itemId, viewer, f).error
    ensures ClaimRequest(itemId, viewer, f).Ok? && insertError.Some? ==> fb.message == OrFallback(insertError.value, "Failed to submit claim")
  {
    match ClaimRequest(itemId, viewer, f)
    case Err(m) => Feedback(false, m, f)
    case Ok(_) =>
      match insertError
      case Some(e) => Feedback(false, OrFallback(e, "Failed to submit claim"), f)
      case None => Feedback(true, "Claim submitted successfully! Staff will review your request.", EmptyClaimForm)
  }

  /** A cleared form cannot be sent again as it is: a double submission is refused. */
  lemma ClearedFormIsRefused(itemId: string, viewer: Option<string>, f: ClaimForm)
    requires AfterClaim(itemId, viewer, f, None).success
    ensures ClaimRequest(itemId, viewer, AfterClaim(itemId, viewer, f, None).form) == Err(NeedMessage)
  {
    assert Trim("") == "";
  }

  // ---------------------------------------------------------------- add-claim page

  /** The items staff can file a claim against: active found items, in the fetched order. */
  function SelectableItems(table: seq<Item>): (r: seq<Item>)
    ensures Seqs.IsSubsequence(r, table)
    ensures forall k :: 0 <= k < |r| ==> r[k].isActive == Some(true) && r[k].status == Found
    ensures forall k :: 0 <= k < |table| && table[k].isActive == Some(true) && table[k].status == Found ==> table[k] in r
  {
    Seqs.FilterIsSubsequence(table, (it: Item) => it.isActive == Some(true) && it.status == Found);
    Seqs.Filter(table, (it: Item) => it.isActive == Some(true) && it.status == Found)
  }

  /** The details card: the first listed item with the selected id. */
  function SelectedItem(items: seq<Item>, id: string): (r: Option<Item>)
    ensures r.Some? ==> r.value in items && r.value.id == id
    ensures r.None? <==> forall k :: 0 <= k < |items| ==> items[k].id != id
  {
    Seqs.Find(items, (it: Item) => it.id == id)
  }

  /** The add-claim form, filled in by staff. */
  datatype StaffClaimForm = StaffClaimForm(
    firstName: string, lastName: string, phone: string, email: string, message: string,
    lostDate: string, lostLocation: string, venue: string)

  /**
   * `handleSubmit` on the add-claim page: an item must be chosen, then both names given,
   * then an email or a phone, then a message (not trimmed). The row keeps the names as typed,
   * stores other empty fields as null and starts both statuses at "pending".
   */
  function StaffClaimRequest(itemId: string, f: StaffClaimForm, user: Option<string>): (r: Result<ClaimInsert, string>)
    ensures itemId == "" ==> r == Err("Please select an item")
    ensures itemId != "" && (f.firstName == "" || f.lastName == "") ==> r == Err("Please enter claimant's first and last name")
    ensures itemId != "" && f.firstName != "" && f.lastName != "" && f.email == "" && f.phone == "" ==>
      r == Err("Please enter either email or phone number")
    ensures r.Ok? <==> itemId != "" && f.firstName != "" && f.lastName != "" && (f.email != "" || f.phone != "") && f.message != ""
    ensures r.Ok? ==> r.value.itemId == itemId && r.value.message == f.message
    ensures r.Ok? ==> r.value.firstName == Some(f.firstName) && r.value.lastName == Some(f.lastName)
    ensures r.Ok? ==> r.value.email == OrNull(f.email) && r.value.phone == OrNull(f.phone)
    ensures r.Ok? ==> r.value.lostDate == OrNull(f.lostDate) && r.value.lostLocation == OrNull(f.lostLocation) && r.value.venue == OrNull(f.venue)
    ensures r.Ok? ==> r.value.claimantId == (if user.Some? then OrNull(user.value) else None)
    ensures r.Ok? ==> r.value.status == Some("pending") && r.value.verificationStatus == Some("pending")
  {
    if itemId == "" then Err("Please select an item")
    else if f.firstName == "" || f.lastName == "" then Err("Please enter claimant's first and last name")
    else if f.email == "" && f.phone == "" then Err("Please enter either email or phone number")
    else if f.message == "" then Err("Please enter a message describing the claim")
    else
      Ok(ClaimInsert(itemId, if user.Some? then OrNull(user.value) else None,
        Some(f.firstName), Some(f.lastName), OrNull(f.phone), OrNull(f.email), f.message,
        OrNull(f.lostDate), OrNull(f.lostLocation), OrNull(f.venue), Some("pending"), Some("pending")))
  }

  /** Every claim either form writes can be answered: it carries an email or a phone number. */
  lemma EveryStoredClaimIsReachable(itemId: string, viewer: Option<string>, f: ClaimForm, g: StaffClaimForm)
    ensures ClaimRequest(itemId, viewer, f).Ok? ==> Truthy(ClaimRequest(itemId, viewer, f).value.email) || Truthy(ClaimRequest(itemId, viewer, f).value.phone)
    ensures StaffClaimRequest(itemId, g, viewer).Ok? ==> Truthy(StaffClaimRequest(itemId, g, viewer).value.email) || Truthy(StaffClaimRequest(itemId, g, viewer).value.phone)
  {
  }

  /** The staff form does not trim: a message of only white space passes there, but not on the item page. */
  lemma BlankMessageOnlyOnStaffForm(itemId: string, viewer: Option<string>, f: ClaimForm, g: StaffClaimForm)
    requires itemId != "" && g.firstName != "" && g.lastName != "" && g.email != ""
    requires g.message != [] && f.message == g.message
    requires forall k :: 0 <= k < |g.message| ==> IsSpace(g.message[k])
    ensures StaffClaimRequest(itemId, g, viewer).Ok?
    ensures ClaimRequest(itemId, viewer, f) == Err(NeedMessage)
  {
    TrimEmptyIffBlank(f.message);
  }
}
