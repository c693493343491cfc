/**
 * The staff dialog for one claim: saving notes and verification, approving,
 * rejecting, and the fallbacks it shows for missing claimant details.
 */
module ClaimReview {
  import opened Wrappers
  import opened Schema

  /** The verification menu's options, in order. */
  const VerificationChoices: seq<string> := ["pending", "verified", "rejected"]

  /** The menu's starting value: the stored verification, or "pending" when there is none. */
  function InitialVerification(c: Claim): (v: string)
    ensures !Truthy(c.verificationStatus) ==> v == "pending"
    ensures Truthy(c.verificationStatus) ==> v == c.verificationStatus.value
  {
    OrFallback(c.verificationStatus.GetOr(""), "pending")
  }

  /** The notes box's starting text: the stored notes, or empty. */
  function InitialNotes(c: Claim): (n: string)
    ensures c.staffNotes.Some? ==> n == c.staffNotes.value
    ensures c.staffNotes.None? ==> n == ""
  {
    c.staffNotes.GetOr("")
  }

  /** What the dialog's buttons do to the claim. */
  datatype Action = SaveDetails(notes: string, verification: string) | Approve | Reject

  /** The update each button sends. Saving never touches the status; the decisions set both statuses. */
  function Apply(c: Claim, a: Action): (r: Claim)
    ensures a.SaveDetails? ==> r.status == c.status && r.staffNotes == Some(a.notes) && r.verificationStatus == Some(a.verification)
    ensures a.Approve? ==> r.status == Some("approved") && r.verificationStatus == Some("verified") && r.staffNotes == c.staffNotes
    ensures a.Reject? ==> r.status == Some("rejected") && r.verificationStatus == Some("rejected") && r.staffNotes == c.staffNotes
    ensures r.(status := c.status, verificationStatus := c.verificationStatus, staffNotes := c.staffNotes) == c
  {
    match a
    case SaveDetails(notes, verification) => c.(staffNotes := Some(notes), verificationStatus := Some(verification))
    case Approve => c.(status := Some("approved"), verificationStatus := Some("verified"))
    case Reject => c.(status := Some("rejected"), verificationStatus := Some("rejected"))
  }

  /** The update applied by id: the claims with the dialog's id change, nothing else does. */
  function ApplyById(claims: seq<Claim>, id: string, a: Action): (r: seq<Claim>)
    ensures |r| == |claims|
    ensures forall k :: 0 <= k < |claims| && claims[k].id != id ==> r[k] == claims[k]
    ensures forall k :: 0 <= k < |claims| && claims[k].id == id ==> r[k] == Apply(claims[k], a)
  {
    seq(|claims|, k requires 0 <= k < |claims| => if claims[k].id == id then Apply(claims[k], a) else claims[k])
  }

  /** Approve and Reject are shown only on a pending claim. */
  function DecisionOffered(c: Claim): (offered: bool)
    ensures c.status == Some("approved") || c.status == Some("rejected") || c.status.None? ==> !offered
    ensures c.status == Some("pending") ==> offered
  {
    c.status == Some("pending")
  }

  /**
   * A decision is final in this dialog: once approved or rejected a claim is offered no further
   * decision, and saving details never reopens or closes it.
   */
  lemma DecisionsAreTerminal(c: Claim, a: Action)
    ensures a.Approve? || a.Reject? ==> !DecisionOffered(Apply(c, a))
    ensures a.SaveDetails? ==> DecisionOffered(Apply(c, a)) == DecisionOffered(c)
  {
  }

  /** The two fields the dialog edits: the notes text and the verification choice. */
  datatype Fields = Fields(notes: string, verification: string)

  /** The fields `useState` seeds from a claim when the dialog mounts. */
  function Seeded(c: Claim): Fields {
    Fields(InitialNotes(c), InitialVerification(c))
  }

  /** The mounted dialog: the claim it was last given and the fields it holds. */
  datatype Dialog = Dialog(claim: Claim, fields: Fields)

  /**
   * What happens around the dialog: staff open a claim's details or edit the two fields, or the
   * dashboard refetches its data. A refetch follows every save, approval, rejection and item
   * status change; it shows the loading skeleton, which unmounts the dialog, and then mounts it
   * again for the claim it was last given.
   */
  datatype Event = Open(c: Claim) | Edit(f: Fields) | Refetch

  /** The remount after a refetch: the dialog is seeded again from the claim it holds. */
  function Remount(d: Option<Dialog>): (r: Option<Dialog>)
    ensures r.Some? <==> d.Some?
    ensures d.Some? ==> r.value.claim == d.value.claim && r.value.fields == Seeded(d.value.claim)
  {
    if d.None? then None else Some(Dialog(d.value.claim, Seeded(d.value.claim)))
  }

  /**
   * The dashboard as written. The dialog has no `key` and the selected claim is never cleared,
   * so opening another claim keeps the mounted dialog and its fields. A refetch remounts it, but
   * seeded from the selected claim as it was before the refetch.
   */
  function StepAsWritten(d: Option<Dialog>, e: Event): (r: Option<Dialog>)
    ensures e.Open? ==> r.Some? && r.value.claim == e.c
    ensures e.Open? && d.None? ==> r.value.fields == Seeded(e.c)
    ensures e.Open? && d.Some? ==> r.value.fields == d.value.fields
    ensures e.Edit? ==> r == (if d.None? then None else Some(Dialog(d.value.claim, e.f)))
    ensures e.Refetch? ==> r == Remount(d)
  {
    match e
    case Open(c) => if d.None? then Some(Dialog(c, Seeded(c))) else Some(d.value.(claim := c))
    case Edit(f) => if d.None? then None else Some(d.value.(fields := f))
    case Refetch => Remount(d)
  }

  /**
   * The dialog as evidently intended: it is seeded again whenever it is given a claim other
   * than the one it shows, so opening a claim, or the refetched row of the same claim, shows
   * that claim's stored details. Only reopening the very same claim keeps unsaved edits.
   */
  function Step(d: Option<Dialog>, e: Event): (r: Option<Dialog>)
    ensures e.Open? ==> r.Some? && r.value.claim == e.c
    ensures e.Open? && (d.None? || d.value.claim != e.c) ==> r.value.fields == Seeded(e.c)
    ensures e.Open? && d.Some? && d.value.claim == e.c ==> r.value.fields == d.value.fields
    ensures e.Edit? ==> r == (if d.None? then None else Some(Dialog(d.value.claim, e.f)))
    ensures e.Refetch? ==> r == Remount(d)
  {
    match e
    case Open(c) => if d.Some? && d.value.claim == c then d else Some(Dialog(c, Seeded(c)))
    case Edit(f) => if d.None? then None else Some(d.value.(fields := f))
    case Refetch => Remount(d)
  }

  /** `handleSave`: the dialog's fields are written to the rows with the shown claim's id. */
  function Save(claims: seq<Claim>, d: Dialog): (r: seq<Claim>)
    ensures |r| == |claims|
    ensures forall k :: 0 <= k < |claims| && claims[k].id == d.claim.id ==>
      r[k].staffNotes == Some(d.fields.notes) && r[k].verificationStatus == Some(d.fields.verification) && r[k].status == claims[k].status
    ensures forall k :: 0 <= k < |claims| && claims[k].id != d.claim.id ==> r[k] == claims[k]
  {
    ApplyById(claims, d.claim.id, SaveDetails(d.fields.notes, d.fields.verification))
  }

  /**
   * As written, the second claim opened shows the first claim's notes and verification, and
   * saving it untouched writes them into the second claim's row.
   */
  lemma SecondClaimShowsTheFirstAsWritten(claims: seq<Claim>, a: Claim, b: Claim)
    ensures StepAsWritten(StepAsWritten(None, Open(a)), Open(b)) == Some(Dialog(b, Seeded(a)))
    ensures forall k :: 0 <= k < |claims| && claims[k].id == b.id ==>
      Save(claims, Dialog(b, Seeded(a)))[k].staffNotes == Some(InitialNotes(a))
  {
  }

  /**
   * The concrete case: a claim with notes "x" opened before a claim without notes; the second
   * claim's row, saved untouched, gains the notes "x".
   */
  lemma NotesLeakIntoTheNextClaimAsWritten(a: Claim, b: Claim)
    requires a.staffNotes == Some("x") && b.staffNotes == None
    ensures StepAsWritten(StepAsWritten(None, Open(a)), Open(b)).value.fields.notes == "x"
    ensures Save([b], StepAsWritten(StepAsWritten(None, Open(a)), Open(b)).value)[0].staffNotes != b.staffNotes
  {
    SecondClaimShowsTheFirstAsWritten([b], a, b);
  }

  /**
   * As written, a refetch also brings the leak back after a save: a claim opened, given new
   * notes and saved, then reopened from the refetched table, shows the notes from before the
   * save, whatever the dialog held before it was opened.
   */
  lemma ReopenedClaimShowsNotesBeforeSaveAsWritten(d: Option<Dialog>, c: Claim, f: Fields)
    ensures StepAsWritten(StepAsWritten(d, Open(c)), Edit(f)) == Some(Dialog(c, f))
    ensures Save([c], Dialog(c, f))[0].staffNotes == Some(f.notes)
    ensures StepAsWritten(StepAsWritten(Some(Dialog(c, f)), Refetch), Open(Save([c], Dialog(c, f))[0])).value.fields == Seeded(c)
  {
  }

  /**
   * Intended, opening a different claim shows that claim's own details, whatever was typed
   * for the claim before.
   */
  lemma SecondClaimShowsItsOwnDetails(a: Claim, b: Claim, f: Fields)
    requires a != b
    ensures Step(Step(Step(None, Open(a)), Edit(f)), Open(b)) == Some(Dialog(b, Seeded(b)))
  {
  }

  /** Intended, a claim opened after any refetch shows its own stored details. */
  lemma OpenAfterRefetchShowsStoredDetails(d: Option<Dialog>, c: Claim)
    ensures Step(Step(d, Refetch), Open(c)) == Some(Dialog(c, Seeded(c)))
  {
  }

  /**
   * Intended, the details saved from the dialog are what it shows when the refetched row of the
   * same claim is opened again: the notes always, and the verification whenever it is not empty.
   */
  lemma SavedDetailsShowOnReopen(claims: seq<Claim>, d: Dialog, k: nat)
    requires k < |claims| && claims[k].id == d.claim.id
    ensures Step(Step(Some(d), Refetch), Open(Save(claims, d)[k])).value.fields.notes == d.fields.notes
    ensures d.fields.verification != "" ==>
      Step(Step(Some(d), Refetch), Open(Save(claims, d)[k])).value.fields.verification == d.fields.verification
  {
    OpenAfterRefetchShowsStoredDetails(Some(d), Save(claims, d)[k]);
  }

  /**
   * Saving a claim's dialog untouched right after opening it, with the rows of its id being the
   * claim shown: a claim with notes and a verification is left as it was; missing notes are
   * stored as empty, and a missing or empty verification as "pending".
   */
  lemma SavingUnchangedDetails(claims: seq<Claim>, d: Option<Dialog>, c: Claim)
    requires d.None? || d.value.claim != c
    requires forall k :: 0 <= k < |claims| && claims[k].id == c.id ==> claims[k] == c
    ensures c.staffNotes.Some? && Truthy(c.verificationStatus) ==> Save(claims, Step(d, Open(c)).value) == claims
    ensures c.staffNotes.None? ==> forall k :: 0 <= k < |claims| && claims[k].id == c.id ==>
      Save(claims, Step(d, Open(c)).value)[k].staffNotes == Some("")
    ensures !Truthy(c.verificationStatus) ==> forall k :: 0 <= k < |claims| && claims[k].id == c.id ==>
      Save(claims, Step(d, Open(c)).value)[k].verificationStatus == Some("pending")
  {
    var r := Save(claims, Step(d, Open(c)).value);
    if c.staffNotes.Some? && Truthy(c.verificationStatus) {
      assert forall k :: 0 <= k < |claims| ==> r[k] == claims[k];
    }
  }

  /** Every verification value a button writes is one of the menu's options. */
  lemma WrittenVerificationIsAChoice(c: Claim, a: Action)
    requires a.SaveDetails? ==> a.verification in VerificationChoices
    ensures Apply(c, a).verificationStatus.Some? && Apply(c, a).verificationStatus.value in VerificationChoices
  {
  }

  /** The name line: both names with a space, or "N/A" unless both are present. */
  function NameShown(c: Claim): (s: string)
    ensures Truthy(c.firstName) && Truthy(c.lastName) ==> s == c.firstName.value + " " + c.lastName.value
    ensures !Truthy(c.firstName) || !Truthy(c.lastName) ==> s == "N/A"
  {
    if Truthy(c.firstName) && Truthy(c.lastName) then c.firstName.value + " " + c.lastName.value else "N/A"
  }

  /** The contact line: the email, else the phone, else "N/A". */
  function ContactShown(c: Claim): (s: string)
    ensures Truthy(c.email) ==> s == c.email.value
    ensures !Truthy(c.email) && Truthy(c.phone) ==> s == c.phone.value
    ensures !Truthy(c.email) && !Truthy(c.phone) ==> s == "N/A"
  {
    OrFallback(c.email.GetOr(""), OrFallback(c.phone.GetOr(""), "N/A"))
  }

  /** Neither line is ever blank: a missing detail always shows a fallback. */
  lemma ShownDetailsAreNeverEmpty(c: Claim)
    ensures NameShown(c) != "" && ContactShown(c) != ""
  {
  }
}
