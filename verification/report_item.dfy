/**
 * Reporting an item: the form's schema, the step-by-step survey students and
 * guests walk through, and the submit handler that decides whether a report
 * may be sent, whether it is anonymous, and what row it writes.
 */
module ReportItem {
  import opened Wrappers
  import opened Text
  import opened Dates
  import opened Schema
  import opened Validation
  import Seqs

  /** The form's state. The last three fields are filled in only by someone who is not signed in. */
  datatype ReportForm = ReportForm(
    title: string,
    description: string,
    category: string,
    location: string,
    dateLostFound: string,
    contactInfo: string,
    color: string,
    venue: string,
    container: string,
    identifyingDetails: string,
    status: string,
    expiryDate: string,
    anonymousEmail: string,
    anonymousPhone: string,
    anonymousName: string)

  /** The state the page starts in: everything empty, except the staff status menu showing "found". */
  const InitialForm: ReportForm := ReportForm("", "", "", "", "", "", "", "", "", "", "found", "", "", "", "")

  // ---------------------------------------------------------------- schema

  /** `itemSchema`'s checks in key order; status and expiry date are unconstrained. */
  function SchemaChecks(f: ReportForm): seq<Check> {
    [ MinLength(f.title, 3, "Title must be at least 3 characters"), MaxLength(f.title, 100),
      MinLength(f.description, 10, "Description must be at least 10 characters"), MaxLength(f.description, 1000),
      MinLength(f.category, 1, "Please select a category"),
      MinLength(f.location, 3, "Location must be at least 3 characters"), MaxLength(f.location, 200),
      MinLength(f.dateLostFound, 1, "Please select a date"),
      MaxLength(f.contactInfo, 200),
      MaxLength(f.color, 50),
      MaxLength(f.venue, 100),
      MaxLength(f.container, 100),
      MaxLength(f.identifyingDetails, 500) ]
  }

  /** The length bounds the schema sets, stated field by field. */
  predicate WithinBounds(f: ReportForm) {
    3 <= |f.title| <= 100 && 10 <= |f.description| <= 1000 && |f.category| >= 1
    && 3 <= |f.location| <= 200 && |f.dateLostFound| >= 1
    && |f.contactInfo| <= 200 && |f.color| <= 50 && |f.venue| <= 100 && |f.container| <= 100
    && |f.identifyingDetails| <= 500
  }

  /** `itemSchema.parse(formData)`: no error exactly when the form is within bounds. */
  function ValidateForm(f: ReportForm): (r: Option<string>)
    ensures r.None? <==> WithinBounds(f)
  {
    var checks := SchemaChecks(f);
    assert WithinBounds(f) <==> forall k :: 0 <= k < |checks| ==> checks[k].ok by {
      if !WithinBounds(f) {
        var k :| 0 <= k < |checks| && !checks[k].ok by {
          if |f.title| < 3 { assert !checks[0].ok; }
          else if |f.title| > 100 { assert !checks[1].ok; }
          else if |f.description| < 10 { assert !checks[2].ok; }
          else if |f.description| > 1000 { assert !checks[3].ok; }
          else if |f.category| < 1 { assert !checks[4].ok; }
          else if |f.location| < 3 { assert !checks[5].ok; }
          else if |f.location| > 200 { assert !checks[6].ok; }
          else if |f.dateLostFound| < 1 { assert !checks[7].ok; }
          else if |f.contactInfo| > 200 { assert !checks[8].ok; }
          else if |f.color| > 50 { assert !checks[9].ok; }
          else if |f.venue| > 100 { assert !checks[10].ok; }
          else if |f.container| > 100 { assert !checks[11].ok; }
          else { assert !checks[12].ok; }
        }
      }
    }
    FirstError(checks)
  }

  /** A too-short title is the error reported, whatever else is wrong. */
  lemma ShortTitleReportedFirst(f: ReportForm)
    requires |f.title| < 3
    ensures ValidateForm(f) == Some("Title must be at least 3 characters")
  {
    FirstErrorCons(SchemaChecks(f));
  }

  /** With a good title, a too-short description is the error reported. */
  lemma ShortDescriptionReportedNext(f: ReportForm)
    requires 3 <= |f.title| <= 100 && |f.description| < 10
    ensures ValidateForm(f) == Some("Description must be at least 10 characters")
  {
    var c := SchemaChecks(f);
    FirstErrorCons(c);
    FirstErrorCons(c[1..]);
    FirstErrorCons(c[2..]);
    assert c[1..][1..] == c[2..];
  }

  // ---------------------------------------------------------------- survey

  /** The form fields the survey asks about. */
  datatype Field = Category | Title | Description | DateLostFound | Location | Color

  function Answer(f: ReportForm, key: Field): string {
    match key
    case Category => f.category
    case Title => f.title
    case Description => f.description
    case DateLostFound => f.dateLostFound
    case Location => f.location
    case Color => f.color
  }

  datatype Step = Step(key: Field, optional: bool)

  /** The survey's questions in order; only the color question may be skipped. */
  const SurveySteps: seq<Step> := [
    Step(Category, false), Step(Title, false), Step(Description, false),
    Step(DateLostFound, false), Step(Location, false), Step(Color, true)]

  /**
   * `handleNextStep`, offered only on a question (the review page, at index
   * `|SurveySteps|`, has no Next button): an unanswered required question holds the
   * survey where it is; otherwise the survey moves on, from the last question to the review.
   */
  function NextStep(step: nat, f: ReportForm): (r: Result<nat, string>)
    requires step < |SurveySteps|
    ensures r.Err? <==> !SurveySteps[step].optional && Answer(f, SurveySteps[step].key) == ""
    ensures r.Ok? ==> r.value == step + 1 && r.value <= |SurveySteps|
  {
    var s := SurveySteps[step];
    if !s.optional && Answer(f, s.key) == "" then Err("Please answer this question to continue")
    else Ok(step + 1)
  }

  /** `handlePreviousStep`: one question back, never before the first. */
  function PreviousStep(step: nat): (r: nat)
    ensures step > 0 ==> r + 1 == step
    ensures step == 0 ==> r == 0
  {
    if step > 0 then step - 1 else step
  }

  /** Moving through the survey keeps the index between the first question and the review page. */
  lemma StepIndexStaysInRange(step: nat, f: ReportForm)
    requires step <= |SurveySteps|
    ensures PreviousStep(step) <= |SurveySteps|
    ensures step < |SurveySteps| && NextStep(step, f).Ok? ==> NextStep(step, f).value <= |SurveySteps|
  {
  }

  /** Going forward and then back returns to the same question. */
  lemma NextThenPrevious(step: nat, f: ReportForm)
    requires step < |SurveySteps| && NextStep(step, f).Ok?
    ensures PreviousStep(NextStep(step, f).value) == step
  {
  }

  /** The color question never holds the survey up; every other question does when unanswered. */
  lemma OnlyColorMayBeSkipped(step: nat, f: ReportForm)
    requires step < |SurveySteps|
    ensures SurveySteps[step].key == Color ==> NextStep(step, f).Ok?
    ensures SurveySteps[step].key != Color && Answer(f, SurveySteps[step].key) == "" ==> NextStep(step, f).Err?
  {
  }

  /** The survey only asks for an answer; the schema still rejects, say, a two-letter title. */
  lemma SurveyWeakerThanSchema()
    ensures NextStep(1, InitialForm.(title := "ab")).Ok?
    ensures ValidateForm(InitialForm.(title := "ab")).Some?
  {
  }

  // ---------------------------------------------------------------- submit

  /** A report is anonymous exactly when it is a lost report from someone not signed in. */
  predicate IsAnonymousReport(status: string, user: Option<string>) {
    status == "lost" && user.None?
  }

  predicate IsStaffUser(user: Option<string>, role: Role) {
    user.Some? && role == Some(Staff)
  }

  /** The checks before the schema: a found report needs a signed-in user; staff must give venue and container. */
  function Gate(f: ReportForm, status: string, user: Option<string>, role: Role): (refusal: Option<string>)
    ensures status == "found" && user.None? ==> refusal == Some("Please sign in as staff to report found items")
    ensures refusal.None? <==> (status != "found" || user.Some?) && (IsStaffUser(user, role) ==> f.venue != "" && f.container != "")
  {
    if status == "found" && user.None? then Some("Please sign in as staff to report found items")
    else if IsStaffUser(user, role) && f.venue == "" then Some("Please select a venue/department")
    else if IsStaffUser(user, role) && f.container == "" then Some("Please enter a container location")
    else None
  }

  /** The pieces of an anonymous report's contact: each given value with its label, then the free contact text. */
  function ContactParts(f: ReportForm): (parts: seq<string>)
    ensures forall k :: 0 <= k < |parts| ==> parts[k] != ""
    ensures parts == [] <==> f.anonymousName == "" && f.anonymousEmail == "" && f.anonymousPhone == "" && f.contactInfo == ""
  {
    (if f.anonymousName != "" then ["Name: " + f.anonymousName] else [])
    + (if f.anonymousEmail != "" then ["Email: " + f.anonymousEmail] else [])
    + (if f.anonymousPhone != "" then ["Phone: " + f.anonymousPhone] else [])
    + (if f.contactInfo != "" then [f.contactInfo] else [])
  }

  /** An anonymous report's contact: the pieces joined by " | ", or null when there are none. */
  function AnonymousContact(f: ReportForm): (r: Option<string>)
    ensures r.None? <==> f.anonymousName == "" && f.anonymousEmail == "" && f.anonymousPhone == "" && f.contactInfo == ""
  {
    JoinNonEmpty(ContactParts(f), " | ");
    OrNull(Join(ContactParts(f), " | "))
  }

  /** With only the free contact text filled in, the contact is that text. */
  lemma AnonymousContactOfTextAlone(f: ReportForm)
    requires f.anonymousName == "" && f.anonymousEmail == "" && f.anonymousPhone == "" && f.contactInfo != ""
    ensures AnonymousContact(f) == Some(f.contactInfo)
  {
  }

  /** With everything filled in, the labelled pieces appear in order, separated by " | ". */
  lemma AnonymousContactOfAll(f: ReportForm)
    requires f.anonymousName != "" && f.anonymousEmail != "" && f.anonymousPhone != "" && f.contactInfo != ""
    ensures AnonymousContact(f) == Some("Name: " + f.anonymousName + " | Email: " + f.anonymousEmail
      + " | Phone: " + f.anonymousPhone + " | " + f.contactInfo)
  {
    var parts := ContactParts(f);
    assert parts == ["Name: " + f.anonymousName, "Email: " + f.anonymousEmail, "Phone: " + f.anonymousPhone, f.contactInfo];
    var tail := ["Phone: " + f.anonymousPhone, f.contactInfo];
    assert parts[2..] == tail && tail[1..] == [f.contactInfo];
    assert Join(tail, " | ") == "Phone: " + f.anonymousPhone + " | " + f.contactInfo;
    assert parts[1..] == ["Email: " + f.anonymousEmail] + tail && parts[1..][1..] == tail;
    assert Join(parts[1..], " | ") == "Email: " + f.anonymousEmail + " | " + Join(tail, " | ");
    var joined := Join(parts, " | ");
    assert joined == "Name: " + f.anonymousName + " | " + Join(parts[1..], " | ");
    assert joined == "Name: " + f.anonymousName + " | Email: " + f.anonymousEmail
      + " | Phone: " + f.anonymousPhone + " | " + f.contactInfo;
    assert joined != "";
  }

  /** The message `Date.prototype.toISOString` throws for an invalid date. */
  const InvalidDateMessage: string := "Invalid time value"

  /**
   * The expiry a report stores: only found reports get one; an expiry typed in is kept,
   * otherwise it is thirty days after the found date, formatted as a day by `formatDay`.
   * A found date that does not parse makes the formatting throw.
   */
  function Expiry(f: ReportForm, status: string, parse: DateParser, formatDay: int -> string): (r: Result<Option<string>, string>)
    ensures status != "found" || f.dateLostFound == "" ==> r == Ok(None)
    ensures status == "found" && f.dateLostFound != "" && f.expiryDate != "" ==> r == Ok(Some(f.expiryDate))
    ensures r.Err? <==> status == "found" && f.dateLostFound != "" && f.expiryDate == "" && parse(f.dateLostFound).Invalid?
  {
    if status == "found" && f.dateLostFound != "" then
      if f.expiryDate != "" then Ok(Some(f.expiryDate))
      else
        match parse(f.dateLostFound)
        case Invalid => Err(InvalidDateMessage)
        case Valid(ms) => Ok(Some(formatDay(DayOf(ms) + 30)))
    else Ok(None)
  }

  /** The default expiry is exactly thirty days after the day the item was found. */
  lemma DefaultExpiryIsThirtyDaysLater(f: ReportForm, parse: DateParser, formatDay: int -> string)
    requires f.dateLostFound != "" && f.expiryDate == "" && parse(f.dateLostFound).Valid?
    ensures Expiry(f, "found", parse, formatDay) == Ok(Some(formatDay(DayOf(parse(f.dateLostFound).ms) + 30)))
  {
  }

  /** What the handler does: refuse before trying, fail with a message, or write a row and move on to a page. */
  datatype Outcome =
    | Refused(message: string)
    | Failed(message: string)
    | Inserted(row: ItemInsert, next: string)

  /** The message a read of `user.id` throws when there is no user. */
  const NoUserMessage: string := "Cannot read properties of null (reading 'id')"

  /** The status the row is written with: a staff member's choice from the menu, or the form's own status. */
  function RowStatus(f: ReportForm, status: string, user: Option<string>, role: Role): (s: string)
    ensures IsStaffUser(user, role) && f.status != "" ==> s == f.status
    ensures !IsStaffUser(user, role) || f.status == "" ==> s == status
  {
    if IsStaffUser(user, role) && f.status != "" then f.status else status
  }

  /**
   * The row a report writes once it has passed the gate and the schema and its expiry is known,
   * or the failure when a signed-in user is needed and missing.
   */
  function BuildRow(f: ReportForm, status: string, user: Option<string>, role: Role, imageUrl: Option<string>, expiry: Option<string>): (r: Result<ItemInsert, string>)
    ensures r.Err? <==> !IsAnonymousReport(status, user) && user.None?
    ensures r.Ok? ==> r.value.isAnonymous == IsAnonymousReport(status, user)
    ensures r.Ok? ==> r.value.userId == (if IsAnonymousReport(status, user) then None else user)
    ensures r.Ok? ==> r.value.contactInfo == (if IsAnonymousReport(status, user) then AnonymousContact(f) else Some(f.contactInfo))
    ensures r.Ok? ==> r.value.status == RowStatus(f, status, user, role) && r.value.expiryDate == expiry
    ensures r.Ok? ==> r.value.color == OrNull(f.color) && r.value.venue == OrNull(f.venue)
    ensures r.Ok? ==> r.value.container == OrNull(f.container) && r.value.identifyingDetails == OrNull(f.identifyingDetails)
    ensures r.Ok? ==> r.value.title == f.title && r.value.description == f.description && r.value.category == f.category
    ensures r.Ok? ==> r.value.location == f.location && r.value.dateLostFound == f.dateLostFound && r.value.imageUrl == imageUrl
  {
    var anonymous := IsAnonymousReport(status, user);
    if !anonymous && user.None? then Err(NoUserMessage)
    else
      Ok(ItemInsert(
        RowStatus(f, status, user, role), f.title, f.description, f.category, f.location, f.dateLostFound,
        if anonymous then AnonymousContact(f) else Some(f.contactInfo),
        imageUrl, OrNull(f.color), OrNull(f.venue), OrNull(f.container), OrNull(f.identifyingDetails),
        expiry, if anonymous then None else user, anonymous))
  }

  /** Where the page goes after a report: staff to the dashboard, anonymous reporters to Browse, others to their items. */
  function NextPage(status: string, user: Option<string>, role: Role): (path: string)
    ensures IsStaffUser(user, role) ==> path == "/admin?tab=items"
    ensures !IsStaffUser(user, role) && IsAnonymousReport(status, user) ==> path == "/browse"
    ensures !IsStaffUser(user, role) && !IsAnonymousReport(status, user) ==> path == "/my-items"
  {
    if IsStaffUser(user, role) then "/admin?tab=items"
    else if IsAnonymousReport(status, user) then "/browse"
    else "/my-items"
  }

  /** The part of `handleSubmit` both readings share: gate, schema, then the expiry. */
  function Prepare(f: ReportForm, status: string, user: Option<string>, role: Role, parse: DateParser, formatDay: int -> string): (r: Result<Option<string>, Outcome>)
    ensures r.Err? ==> !r.error.Inserted?
    ensures r.Ok? ==> Gate(f, status, user, role).None? && WithinBounds(f)
    ensures Gate(f, status, user, role).Some? ==> r == Err(Refused(Gate(f, status, user, role).value))
  {
    match Gate(f, status, user, role)
    case Some(m) => Err(Refused(m))
    case None =>
      match ValidateForm(f)
      case Some(m) => Err(Failed(m))
      case None =>
        match Expiry(f, status, parse, formatDay)
        case Err(m) => Err(Failed(m))
        case Ok(e) => Ok(e)
  }

  /**
   * `handleSubmit` with the status override reading whether the user is signed-in staff:
   * the row is written only after the gate and the schema pass.
   */
  function Submit(f: ReportForm, status: string, user: Option<string>, role: Role, imageUrl: Option<string>,
                  parse: DateParser, formatDay: int -> string): (r: Outcome)
    ensures status == "found" && user.None? ==> r == Refused("Please sign in as staff to report found items")
    ensures r.Inserted? ==> Gate(f, status, user, role).None? && WithinBounds(f)
    ensures r.Inserted? ==> (r.row.isAnonymous <==> status == "lost" && user.None?)
    ensures r.Inserted? ==> (r.row.userId.None? <==> r.row.isAnonymous)
    ensures r.Inserted? ==> (r.row.expiryDate.Some? <==> status == "found")
  {
    match Prepare(f, status, user, role, parse, formatDay)
    case Err(o) => o
    case Ok(expiry) =>
      match BuildRow(f, status, user, role, imageUrl, expiry)
      case Err(m) => Failed(m)
      case Ok(row) => Inserted(row, NextPage(status, user, role))
  }

  /** The message of the `ReferenceError` the row assembly throws: `isStaff` is not in scope there. */
  const IsStaffMissingMessage: string := "isStaff is not defined"

  /**
   * `handleSubmit` as the page has it: the row's status reads an `isStaff` that only the
   * form component declares, so building the row throws and the handler reports the error.
   */
  function SubmitAsWritten(f: ReportForm, status: string, user: Option<string>, role: Role, imageUrl: Option<string>,
                           parse: DateParser, formatDay: int -> string): (r: Outcome)
    ensures !r.Inserted?
    ensures Prepare(f, status, user, role, parse, formatDay).Ok? ==> r == Failed(IsStaffMissingMessage)
  {
    match Prepare(f, status, user, role, parse, formatDay)
    case Err(o) => o
    case Ok(_) => Failed(IsStaffMissingMessage)
  }

  /** The status the two forms submit with: the staff form's menu choice (else "found"), the survey's "lost". */
  function FormStatus(staffForm: bool, f: ReportForm): (s: string)
    ensures staffForm && f.status != "" ==> s == f.status
    ensures staffForm && f.status == "" ==> s == "found"
    ensures !staffForm ==> s == "lost"
  {
    if staffForm then (if f.status != "" then f.status else "found") else "lost"
  }

  /**
   * On the page's two forms (the staff form is shown only to signed-in staff), the status
   * written is the status the form submits: the override never changes it.
   */
  lemma RowStatusIsSubmittedStatus(staffForm: bool, f: ReportForm, user: Option<string>, role: Role)
    requires staffForm ==> IsStaffUser(user, role)
    requires !staffForm ==> !IsStaffUser(user, role)
    ensures RowStatus(f, FormStatus(staffForm, f), user, role) == FormStatus(staffForm, f)
  {
  }

  /** Nobody signed in can file a found report, and no found report is anonymous. */
  lemma FoundReportsAreNeverAnonymous(f: ReportForm, user: Option<string>, role: Role, imageUrl: Option<string>,
                                      parse: DateParser, formatDay: int -> string)
    ensures Submit(f, "found", user, role, imageUrl, parse, formatDay).Inserted? ==>
      user.Some? && !Submit(f, "found", user, role, imageUrl, parse, formatDay).row.isAnonymous
  {
  }

  /** A student's well-formed lost report. */
  const SampleReport: ReportForm :=
    InitialForm.(title := "Wallet", description := "Black leather wallet", category := "bags",
                 location := "Library", dateLostFound := "2024-01-05")

  /** The page as written rejects even this report, which the corrected handler writes. */
  lemma AsWrittenRejectsAWellFormedReport(parse: DateParser, formatDay: int -> string)
    ensures SubmitAsWritten(SampleReport, "lost", Some("u1"), Some(Student), None, parse, formatDay) == Failed(IsStaffMissingMessage)
    ensures Submit(SampleReport, "lost", Some("u1"), Some(Student), None, parse, formatDay).Inserted?
  {
    assert WithinBounds(SampleReport);
  }
}
