# Lost and Found — a Dafny model of the client-side logic

This project models the client-side logic of a lost-and-found web application. Students and
guests report lost items. Staff log found items, review claims and automatic match
suggestions, manage storage and expiry, and look at reports and the audit log. The model
covers what the pages decide with the rows they are given:

- which rows a page shows;
- which search and filter criteria a row passes;
- which rows a form submission would write;
- which message the user gets;
- which buttons and links a visitor sees.

Every page's database query becomes a function over a table given as a sequence of rows.
The order of that sequence stands for the order the database returns. The current time, the
`Date` parser, the email check and the replies of the auth service and the database are
parameters.

Modules follow the application's pages and components:

| module | file | models |
|---|---|---|
| `Wrappers`, `Text`, `Seqs`, `Validation` | wrappers.dfy, text.dfy, seqs.dfy, validation.dfy | `Option`/`Result`; JavaScript string helpers (`toLowerCase` on ASCII, `trim`, `includes`, `split`, `join`); filters and counts; zod's "first error wins" |
| `Schema` | schema.dfy | the database enums and their label lists, the `items`, `claims`, `matches` and `audit_log` rows, JavaScript truthiness of nullable text |
| `Dates` | dates.dfy | `Date` values including the invalid date, start and end of a day |
| `QueryParams` | query.dfy | `URLSearchParams` as an ordered list of pairs: `get`, parsing and writing |
| `Search` | search.dfy | the case-insensitive "contains" tests on required and nullable columns |
| `Browse`, `LegacyBrowse` | browse.dfy, legacy_browse.dfy | the public browse page with its URL-synchronised filters, and the older page it replaced |
| `StaffGate` | gate.dfy | the staff-only check each admin page runs |
| `Dashboard` | dashboard.dfy | the admin dashboard's lists, counters, badges and status updates |
| `Storage` | storage.dfy | storage management: expiry, counters, disposal, storage updates |
| `AuditLog` | audit.dfy | the audit log page |
| `ReportItem` | report_item.dfy | the report form: schema, step-by-step survey, the submission and the row it writes |
| `ClaimForms` | claim_forms.dfy | claiming from an item's page, and the staff "add claim" form |
| `ClaimReview` | claim_review.dfy | the staff claim-details dialog |
| `MatchReview` | match_review.dfy | the staff review of automatic match suggestions |
| `MyItems` | my_items.dfy | a user's own items and the claims on them |
| `FeatureAccess` | features.dfy | the features page's access table, badges and buttons |
| `Navbar` | navbar.dfy | the staff links and which one is highlighted |
| `HomePage` | home.dfy | the home page's quick actions |
| `Reports` | reports.dfy | the reports page's tallies, claim statistics, success rate and CSV export |
| `AuthForms` | auth_forms.dfy | the sign-in and sign-up forms |

## Model

| member | source | states |
|---|---|---|
| Schema.ParseRole | frontend/src/integrations/supabase/types.ts:373-374 | a role label is accepted only if it is the label of that role |
| Schema.ParseCategory | frontend/src/integrations/supabase/types.ts:375-384 | a category label is accepted only if it is the label of that category |
| Schema.ParseStatus | frontend/src/integrations/supabase/types.ts:385 | a status label is accepted only if it is the label of that status |
| Schema.EnumLabelsRoundTrip | frontend/src/integrations/supabase/types.ts:373-385 | parsing the label of every role, category and status gives that value back |
| Schema.EnumLabelsAreTheConstants | frontend/src/integrations/supabase/types.ts:510-525 | a label parses exactly when it is listed in the exported constants |
| Schema.ConstantsListTheEnums | frontend/src/integrations/supabase/types.ts:510-525 | the constant lists have 2, 9 and 4 entries, in the enum order |
| Schema.EnumListsAreComplete | frontend/src/integrations/supabase/types.ts:373-385 | every value of each enum appears in its list |
| Schema.ConstantsAreDistinct | frontend/src/integrations/supabase/types.ts:510-525 | no constant list repeats a label |
| Dates.StartOfDay | frontend/src/pages/Browse.tsx:120-122 | `setHours(0,0,0,0)` gives the earliest instant of the same day; an invalid date stays invalid |
| Dates.EndOfDay | frontend/src/pages/Browse.tsx:124-127 | `setHours(23,59,59,999)` gives the latest instant of the same day; an invalid date stays invalid |
| Dates.AtOrAfterStartOfDayIffDay | frontend/src/pages/Browse.tsx:119-123 | a date passes a "from" bound exactly when its day is the bound's day or later |
| Dates.AtOrBeforeEndOfDayIffDay | frontend/src/pages/Browse.tsx:124-128 | a date passes a "to" bound exactly when its day is the bound's day or earlier |
| Search.FieldContainsIsOptionalContains | frontend/src/pages/AdminDashboard.tsx:137-141 | a `field && includes` test and an optional-chaining `?.includes` test disagree only on an empty field with an empty key |
| Search.EmptyKeyMatchesPresent | frontend/src/pages/AdminDashboard.tsx:137-141 | with an empty search, optional chaining matches every present field, even an empty one |
| QueryParams.ParseToString | frontend/src/pages/Browse.tsx:43-53 | parsing written parameters gives the same pairs back, when no name or value holds a separator |
| Browse.FetchItems | frontend/src/pages/Browse.tsx:60-75 | the page loads exactly the active rows; a visitor who is not staff gets only found items; table order is kept |
| Browse.ClearAllFilters | frontend/src/pages/Browse.tsx:136-147 | clearing leaves no filter active, and it is the only state with no filter active |
| Browse.HasActiveFilters | frontend/src/pages/Browse.tsx:147 | no filter is active exactly when every filter holds its neutral value |
| Browse.NeutralFiltersMatchEverything | frontend/src/pages/Browse.tsx:92-95 | when no filter is active every item passes, so the early return agrees with the filter |
| Browse.FilteredItems | frontend/src/pages/Browse.tsx:92-133 | the list keeps exactly the items meeting every criterion, in their order |
| Browse.ShortcutAgreesWithFilter | frontend/src/pages/Browse.tsx:93-95 | the shortcut that returns all items gives the same list as filtering |
| Browse.FilteredItemsIdempotent | frontend/src/pages/Browse.tsx:92-133 | filtering the filtered list again changes nothing |
| Browse.NarrowerMatchesFewer | frontend/src/pages/Browse.tsx:99-131 | an item that passes narrower filters passes wider ones |
| Browse.NarrowingFiltersTheFilteredList | frontend/src/pages/Browse.tsx:92-133 | narrowing the filters equals filtering the wider result again |
| Browse.SearchIgnoresCaseAndPadding | frontend/src/pages/Browse.tsx:97 | lower-casing or trimming the query does not change which items match |
| Browse.BlankQueryMatchesEverything | frontend/src/pages/Browse.tsx:97-101 | a query of only blanks matches every item |
| Browse.SearchFindsVenueAndContainer | frontend/src/pages/Browse.tsx:106-107 | a query found in the venue or the container matches the item |
| Browse.StatusAndCategoryAreExact | frontend/src/pages/Browse.tsx:109-110 | a passing item has the selected status and category, unless "all" is selected |
| Browse.ColorFilterNeedsColor | frontend/src/pages/Browse.tsx:111 | an item without a color never passes a color filter |
| Browse.LocationFilterAcceptsVenue | frontend/src/pages/Browse.tsx:112-114 | the location filter also accepts a match in the venue |
| Browse.DateRangeIsInclusiveByDay | frontend/src/pages/Browse.tsx:116-129 | with both bounds set, an item passes exactly when its day lies between the two bound days, both included |
| Browse.UnparsableDatesFailBounds | frontend/src/pages/Browse.tsx:116-129 | an item whose date does not parse, or whose set bound does not parse, fails the date criterion |
| Browse.NonStaffSeeOnlyFound | frontend/src/pages/Browse.tsx:71-73 | a visitor who is not staff sees only found items; any other status filter leaves the list empty |
| Browse.ShownStatusFilter | frontend/src/pages/Browse.tsx:201-213 | a visitor who is not staff, or one whose role is still loading, sees the status filter as "all" |
| Browse.ReadParam | frontend/src/pages/Browse.tsx:34-40 | a filter starts as its parameter's value when that is non-empty, else as its default |
| Browse.ReadFilters | frontend/src/pages/Browse.tsx:34-40 | the status and category read from the URL are never empty |
| Browse.Entry | frontend/src/pages/Browse.tsx:45-51 | a filter is written as one parameter exactly when it is set and not its default |
| Browse.WriteFilters | frontend/src/pages/Browse.tsx:43-53 | with no filter active the URL gets no parameters, and no parameter is written empty |
| Browse.GetEntry | frontend/src/pages/Browse.tsx:45-51 | reading a parameter from one filter's entry finds that filter's kept value, and nothing for any other name |
| Browse.GetWritten | frontend/src/pages/Browse.tsx:43-53 | reading each parameter from the written URL finds that filter's value unless it was empty or its default |
| Browse.ReadWritten | frontend/src/pages/Browse.tsx:34-53 | reading the written URL restores every filter, with an empty status or category read back as "all" |
| Browse.ReadWriteRoundTrip | frontend/src/pages/Browse.tsx:34-53 | writing the filters to the URL and reading them back gives the same filters |
| Browse.WriteReadWrite | frontend/src/pages/Browse.tsx:34-53 | writing the filters read back from a written URL gives the same URL |
| LegacyBrowse.FilteredItems | src/pages/Browse.tsx:65-85 | the older list keeps exactly the items meeting its criteria, in order |
| LegacyBrowse.EmptyQueryMatchesEverything | src/pages/Browse.tsx:66-70 | an empty query matches every item |
| LegacyBrowse.VenueAndContainerIgnored | src/pages/Browse.tsx:65-85 | the older page's verdict does not depend on venue or container |
| LegacyBrowse.PaddedQueryMissesHere | src/pages/Browse.tsx:66-70 | the older page does not trim, so " a" misses the item titled "a" |
| LegacyBrowse.PaddedQueryFoundByNewerPage | frontend/src/pages/Browse.tsx:97-101 | the newer page trims, so " a" finds the item titled "a" |
| LegacyBrowse.NewerSearchIsWider | frontend/src/pages/Browse.tsx:97-107 | every trimmed query the older search accepts is accepted by the newer one |
| LegacyBrowse.NewerDatesAreWider | frontend/src/pages/Browse.tsx:116-129 | every date the older bounds accept is accepted by the newer bounds |
| LegacyBrowse.NewerPageShowsMore | frontend/src/pages/Browse.tsx:92-133 | for a trimmed query, every item the older page shows is shown by the newer page |
| LegacyBrowse.NonStaffSeeOnlyFound | src/pages/Browse.tsx:45-52 | the older page also shows visitors who are not staff only found items |
| StaffGate.AfterRoleLoads | frontend/src/pages/AdminDashboard.tsx:62-71 | the page waits exactly while the role loads, and loads data only for staff |
| StaffGate.Eager | frontend/src/pages/StorageManagement.tsx:40-49 | the page loads data only for staff, and redirects only once the role has loaded |
| StaffGate.GatesAgreeOnceLoaded | src/pages/Reports.tsx:41-50 | once the role has loaded both gates load for staff and redirect everyone else |
| StaffGate.GatesDifferOnlyWhileLoadingStaff | src/pages/AuditLog.tsx:40-49 | the two gates differ exactly while the loading flag is set and the role reads staff; the `useUserRole` hook sets role and flag together, so with that hook this state does not arise |
| Dashboard.FilteredItems | frontend/src/pages/AdminDashboard.tsx:131-135 | the items tab keeps exactly the items whose title, category or location contains the term |
| Dashboard.EmptyTermKeepsAllItems | frontend/src/pages/AdminDashboard.tsx:131-135 | an empty search keeps every item |
| Dashboard.FilteredClaims | frontend/src/pages/AdminDashboard.tsx:137-141 | the claims tab keeps exactly the claims whose item title, reference or email contains the term |
| Dashboard.EmptyTermKeepsSearchableClaims | frontend/src/pages/AdminDashboard.tsx:137-141 | an empty search keeps exactly the claims with an item, a reference or an email |
| Dashboard.UnsearchableClaimNeverListed | frontend/src/pages/AdminDashboard.tsx:137-141 | a claim with no item, no reference and no email is never listed |
| Dashboard.PendingClaims | frontend/src/pages/AdminDashboard.tsx:219 | the pending counter is at most the number of claims, and zero exactly when none is pending |
| Dashboard.PendingAndOthersPartitionClaims | frontend/src/pages/AdminDashboard.tsx:219 | pending claims and the others add up to all claims |
| Dashboard.ItemsThisWeek | frontend/src/pages/AdminDashboard.tsx:143-146 | the weekly counter is at most the number of items |
| Dashboard.WeekBoundIsExclusive | frontend/src/pages/AdminDashboard.tsx:143-146 | an item created exactly seven days ago is not counted, and one a millisecond later is |
| Dashboard.ItemsThisWeekShrinksOverTime | frontend/src/pages/AdminDashboard.tsx:143-146 | for the same items, the weekly counter never grows as time passes |
| Dashboard.StatusBadge | frontend/src/pages/AdminDashboard.tsx:294-304 | found items get the default badge, lost items the destructive one, and claimed or returned items the secondary one |
| Dashboard.LocationCell | frontend/src/pages/AdminDashboard.tsx:306 | the location column shows the venue when there is one, else the location |
| Dashboard.PickStatus | frontend/src/pages/AdminDashboard.tsx:319-330 | picking the option a row already shows sends no update and leaves the table as it was |
| Dashboard.StatusMenuOffersEveryStatus | frontend/src/pages/AdminDashboard.tsx:319-330 | from whatever status a row shows, picking any status gives the row that status, leaves rows with other ids untouched, and changes nothing but statuses |
| Dashboard.UpdateItemStatus | frontend/src/pages/AdminDashboard.tsx:114-129 | only rows with the id get the new status, and nothing else in any row changes |
| Dashboard.UpdateClaimStatus | frontend/src/pages/AdminDashboard.tsx:97-112 | only claims with the id get the new status, and nothing else in any claim changes |
| Dashboard.UpdateItemStatusUndo | frontend/src/pages/AdminDashboard.tsx:114-129 | setting an item back to its previous status restores the table |
| Storage.FetchActive | frontend/src/pages/StorageManagement.tsx:51-57 | the page lists exactly the active items, in order |
| Storage.ExpiryIsStrict | frontend/src/pages/StorageManagement.tsx:111-114 | no expiry date means not expired; an item expiring exactly now is not expired, and one that expired a millisecond ago is |
| Storage.IsExpired | frontend/src/pages/StorageManagement.tsx:111-114 | an item is expired only with a set expiry that parses to an instant strictly before a valid current time |
| Storage.ExpiredStaysExpired | frontend/src/pages/StorageManagement.tsx:111-114 | once expired, an item stays expired as time passes |
| Storage.FilteredItems | frontend/src/pages/StorageManagement.tsx:116-122 | the search keeps exactly the items whose title, category or storage location contains the term; a listed item without a storage location matched on title or category |
| Storage.UnstoredFoundByTitleOrCategory | frontend/src/pages/StorageManagement.tsx:116-122 | an item with no storage location is found only through its title or category |
| Storage.StorageCounts | frontend/src/pages/StorageManagement.tsx:155-179 | the stored and no-storage-info cards add up to all items; each card is non-zero exactly when some row qualifies |
| Storage.DisposeNeedsExpiry | frontend/src/pages/StorageManagement.tsx:284-292 | the Dispose button appears only on a row with an expiry date |
| Storage.Dispose | frontend/src/pages/StorageManagement.tsx:93-109 | without confirmation nothing changes; with it the item becomes returned and inactive and nothing else changes |
| Storage.DisposeInTable | frontend/src/pages/StorageManagement.tsx:93-109 | disposal touches only the rows with that id |
| Storage.DisposedItemLeavesTheList | frontend/src/pages/StorageManagement.tsx:93-109 | after disposal the item is gone from the page's list and every other active item is still listed |
| Storage.UpdateStorage | frontend/src/pages/StorageManagement.tsx:69-91 | an update is sent exactly when both prompts are answered, and it sets location, expiry and storage date and nothing else |
| Storage.UpdatedRowIsStored | frontend/src/pages/StorageManagement.tsx:268-283 | an updated row counts as in storage, and is expired exactly when the entered expiry is past |
| AuditLog.LatestEntries | src/pages/AuditLog.tsx:51-68 | the page shows the newest 100 entries at most, as a prefix of the newest-first log |
| AuditLog.FilteredLogs | src/pages/AuditLog.tsx:108-114 | the list keeps exactly the entries matching the search and the type filter, in order |
| AuditLog.EmptySearchKeepsEntriesWithText | src/pages/AuditLog.tsx:108-114 | with no search and no type filter, exactly the entries with some searched text are kept |
| AuditLog.TypeFilterIsExact | src/pages/AuditLog.tsx:112 | with a type selected, every listed entry has exactly that type |
| AuditLog.KindOf | src/pages/AuditLog.tsx:70-106 | an action type falls to the default presentation exactly when it is not one of the known types |
| AuditLog.ActionIcon | src/pages/AuditLog.tsx:70-87 | an action type the page does not know gets the default note icon |
| AuditLog.ActionColor | src/pages/AuditLog.tsx:89-106 | an action type the page does not know gets the grey badge |
| AuditLog.PresentationSeparatesKnownTypes | src/pages/AuditLog.tsx:70-106 | two action types share an icon, and share a color, exactly when they are of the same kind |
| ReportItem.ValidateForm | frontend/src/pages/ReportItem.tsx:23-36 | the schema accepts the form exactly when every field is within its bounds |
| ReportItem.ShortTitleReportedFirst | frontend/src/pages/ReportItem.tsx:23-36 | a title under 3 characters is the error reported, whatever else is wrong |
| ReportItem.ShortDescriptionReportedNext | frontend/src/pages/ReportItem.tsx:23-36 | with a valid title, a description under 10 characters is the error reported |
| ReportItem.NextStep | frontend/src/pages/ReportItem.tsx:436-449 | the survey refuses to advance exactly on an unanswered required step, and otherwise moves one step on |
| ReportItem.PreviousStep | frontend/src/pages/ReportItem.tsx:451-455 | Back moves one step back, and stays on the first step |
| ReportItem.StepIndexStaysInRange | frontend/src/pages/ReportItem.tsx:436-455 | moving forward or back never leaves the survey's range |
| ReportItem.NextThenPrevious | frontend/src/pages/ReportItem.tsx:436-455 | Back after a successful Next returns to the same step |
| ReportItem.OnlyColorMayBeSkipped | frontend/src/pages/ReportItem.tsx:299-346 | the color step can always be skipped, and any other unanswered step blocks |
| ReportItem.SurveyWeakerThanSchema | frontend/src/pages/ReportItem.tsx:436-449 | the survey accepts a two-letter title that the schema later rejects |
| ReportItem.Gate | frontend/src/pages/ReportItem.tsx:494-511 | a found-item report needs a signed-in user, and staff must give venue and container |
| ReportItem.ContactParts | frontend/src/pages/ReportItem.tsx:525-536 | only the non-empty contact fields are joined, and there are none exactly when all are empty |
| ReportItem.AnonymousContact | frontend/src/pages/ReportItem.tsx:525-536 | an anonymous report stores no contact exactly when every contact field is empty |
| ReportItem.AnonymousContactOfTextAlone | frontend/src/pages/ReportItem.tsx:525-536 | free contact text alone is stored as it is |
| ReportItem.AnonymousContactOfAll | frontend/src/pages/ReportItem.tsx:525-536 | with every field present, name, email, phone and free text are joined with " \| " |
| ReportItem.Expiry | frontend/src/pages/ReportItem.tsx:538-549 | only found items with a date get an expiry; a typed expiry is kept; an unparsable date with no typed expiry is an error |
| ReportItem.DefaultExpiryIsThirtyDaysLater | frontend/src/pages/ReportItem.tsx:543-547 | without a typed expiry, a found item expires 30 days after its date |
| ReportItem.RowStatus | frontend/src/pages/ReportItem.tsx:552 | staff's chosen status is written when it is set, else the page's status |
| ReportItem.BuildRow | frontend/src/pages/ReportItem.tsx:551-574 | the written row carries the validated fields; it is anonymous exactly for a signed-out lost report; a signed-in report needs a user |
| ReportItem.NextPage | frontend/src/pages/ReportItem.tsx:586-593 | staff go to the items tab, anonymous reporters to browse, others to their items |
| ReportItem.Prepare | frontend/src/pages/ReportItem.tsx:491-549 | a submission reaches the insert only if the gate and the schema both pass, and a gate refusal is reported as such |
| ReportItem.Submit | frontend/src/pages/ReportItem.tsx:491-603 | an inserted row passed gate and schema; it is anonymous exactly for a signed-out lost report; it has an expiry exactly when it is a found report |
| ReportItem.SubmitAsWritten | frontend/src/pages/ReportItem.tsx:552 | the submission as written never inserts, and fails with the reference error once validation passes |
| ReportItem.FormStatus | frontend/src/pages/ReportItem.tsx:975-997 | the staff form submits the chosen status or "found", and the survey submits "lost" |
| ReportItem.RowStatusIsSubmittedStatus | frontend/src/pages/ReportItem.tsx:552 | with the corrected staff check, the written status is the status the form submitted |
| ReportItem.FoundReportsAreNeverAnonymous | frontend/src/pages/ReportItem.tsx:514 | an inserted found-item report is never anonymous and has an owner |
| ReportItem.AsWrittenRejectsAWellFormedReport | frontend/src/pages/ReportItem.tsx:552 | a well-formed lost report by a signed-in student fails as written but is inserted once corrected |
| ClaimForms.IsOwner | frontend/src/pages/ItemDetail.tsx:140 | a signed-out viewer, or an item reported by nobody signed in, has no owner; an owner's id is the item's reporter |
| ClaimForms.CanClaim | frontend/src/pages/ItemDetail.tsx:141 | only a lost or found item is claimable, and an item reported by nobody signed in is claimable exactly when lost or found |
| ClaimForms.SignedOutViewerMayClaimOpenItems | frontend/src/pages/ItemDetail.tsx:140-141 | a signed-out viewer owns nothing and may claim exactly the lost and found items |
| ClaimForms.ClosedOrOwnItemsTakeNoClaims | frontend/src/pages/ItemDetail.tsx:140-141 | claimed or returned items, and one's own items, cannot be claimed |
| ClaimForms.ClaimRequest | frontend/src/pages/ItemDetail.tsx:80-113 | a claim is sent exactly with a non-blank message and an email or phone; the row carries the trimmed message and empty fields as null |
| ClaimForms.ClaimRowIsWellFormed | frontend/src/pages/ItemDetail.tsx:80-113 | a sent claim has a trimmed non-empty message and some contact |
| ClaimForms.IdeographicSpaceIsBlank | frontend/src/pages/ItemDetail.tsx:81-84 | a message of only an ideographic space is blank to `trim` and refused |
| ClaimForms.SubmitEnabled | frontend/src/pages/ItemDetail.tsx:307 | the button is disabled while submitting, and enabled exactly with an email and a message holding some non-space character |
| ClaimForms.EnabledSubmitIsAccepted | frontend/src/pages/ItemDetail.tsx:307 | whenever the submit button is enabled the claim is accepted |
| ClaimForms.PhoneOnlyClaimNeedsTheHandler | frontend/src/pages/ItemDetail.tsx:307 | a phone-only claim would be accepted, but the button stays disabled without an email |
| ClaimForms.AfterClaim | frontend/src/pages/ItemDetail.tsx:80-113 | success clears the form, failure keeps it, and the message is the refusal or the insert error |
| ClaimForms.ClearedFormIsRefused | frontend/src/pages/ItemDetail.tsx:80-113 | the form cleared after a claim cannot be resubmitted as it is |
| ClaimForms.SelectableItems | frontend/src/pages/AddClaim.tsx:60-78 | the staff form offers exactly the active found items, in order |
| ClaimForms.SelectedItem | frontend/src/pages/AddClaim.tsx:159 | the selection finds an item with that id, and none exactly when no item has it |
| ClaimForms.StaffClaimRequest | frontend/src/pages/AddClaim.tsx:80-139 | the staff form checks item, names, contact and message in that order; an accepted claim starts pending with pending verification |
| ClaimForms.EveryStoredClaimIsReachable | frontend/src/pages/AddClaim.tsx:80-139 | a claim from either form always has an email or a phone |
| ClaimForms.BlankMessageOnlyOnStaffForm | frontend/src/pages/AddClaim.tsx:99-102 | a message of only white space passes the staff form, which does not trim it, but the item page refuses the same message |
| ClaimReview.InitialVerification | src/components/admin/ClaimDetailsDialog.tsx:20 | a freshly mounted dialog starts at the stored verification, or "pending" when there is none |
| ClaimReview.InitialNotes | src/components/admin/ClaimDetailsDialog.tsx:19 | a freshly mounted dialog starts with the stored notes, or empty |
| ClaimReview.Apply | src/components/admin/ClaimDetailsDialog.tsx:23-93 | saving writes notes and verification; approving or rejecting sets status and verification together; nothing else changes |
| ClaimReview.ApplyById | src/components/admin/ClaimDetailsDialog.tsx:23-93 | only the claim with the id changes |
| ClaimReview.DecisionOffered | src/components/admin/ClaimDetailsDialog.tsx:204 | approve and reject are shown for a pending claim, never for an approved, rejected or status-less one |
| ClaimReview.DecisionsAreTerminal | src/components/admin/ClaimDetailsDialog.tsx:204 | after approval or rejection the decision buttons are gone; saving details leaves them as they were |
| ClaimReview.Remount | frontend/src/pages/AdminDashboard.tsx:73-75 | after a refetch the dialog holds the same claim, with its fields seeded again from that claim |
| ClaimReview.StepAsWritten | frontend/src/pages/AdminDashboard.tsx:404-441 | as the dashboard renders it, opening another claim keeps the mounted dialog's fields; a refetch reseeds them from the claim selected before it |
| ClaimReview.Step | frontend/src/pages/AdminDashboard.tsx:436-441 | as intended, opening any claim other than the one shown, including the refetched row of the same claim, shows that claim's own notes and verification; only reopening the very same claim keeps unsaved edits |
| ClaimReview.Save | src/components/admin/ClaimDetailsDialog.tsx:23-45 | saving writes the dialog's notes and verification to the rows with the shown claim's id, keeps their status, and leaves other rows alone |
| ClaimReview.SecondClaimShowsTheFirstAsWritten | frontend/src/pages/AdminDashboard.tsx:436-441 | as written, the second claim opened shows the first claim's fields, and saving it writes the first claim's notes into its row |
| ClaimReview.NotesLeakIntoTheNextClaimAsWritten | src/components/admin/ClaimDetailsDialog.tsx:19-32 | as written, claim B without notes opened after claim A with notes "x" shows "x", and saving it changes B's notes |
| ClaimReview.ReopenedClaimShowsNotesBeforeSaveAsWritten | frontend/src/pages/AdminDashboard.tsx:436-441 | as written, a claim edited, saved, refetched and reopened shows the notes it had before the save |
| ClaimReview.SecondClaimShowsItsOwnDetails | src/components/admin/ClaimDetailsDialog.tsx:19-20 | as intended, a second, different claim shows its own details whatever was typed for the first |
| ClaimReview.OpenAfterRefetchShowsStoredDetails | src/components/admin/ClaimDetailsDialog.tsx:19-20 | as intended, a claim opened after any refetch shows its own stored details |
| ClaimReview.SavedDetailsShowOnReopen | src/components/admin/ClaimDetailsDialog.tsx:23-45 | as intended, reopening the refetched row after a save shows the saved notes, and the saved verification when it is not empty |
| ClaimReview.SavingUnchangedDetails | src/components/admin/ClaimDetailsDialog.tsx:19-45 | saving a dialog unedited right after opening its claim changes nothing when notes and verification are set; missing notes are stored as empty, and a missing or empty verification as "pending" |
| ClaimReview.WrittenVerificationIsAChoice | src/components/admin/ClaimDetailsDialog.tsx:172-181 | every action leaves the verification at one of the menu's choices |
| ClaimReview.NameShown | src/components/admin/ClaimDetailsDialog.tsx:143-145 | the name shows both names, or "N/A" when either is missing |
| ClaimReview.ContactShown | src/components/admin/ClaimDetailsDialog.tsx:150 | the contact shows the email, else the phone, else "N/A" |
| ClaimReview.ShownDetailsAreNeverEmpty | src/components/admin/ClaimDetailsDialog.tsx:143-150 | the name and contact shown are never empty |
| MatchReview.InsertByScore | src/components/admin/MatchReview.tsx:44-64 | inserting keeps the list ordered by descending score and adds exactly the one match |
| MatchReview.SortByScore | src/components/admin/MatchReview.tsx:44-64 | sorting gives a permutation ordered by descending score |
| MatchReview.PendingMatches | src/components/admin/MatchReview.tsx:44-64 | the page lists exactly the pending matches, highest score first |
| MatchReview.AlgorithmLabel | src/components/admin/MatchReview.tsx:138 | the algorithm is shown as stored, or "manual" when missing |
| MatchReview.DraftShown | src/components/admin/MatchReview.tsx:38 | a match's notes box shows its draft, or nothing |
| MatchReview.Review | src/components/admin/MatchReview.tsx:66-94 | a review needs a signed-in user and records decision, reviewing user, time and the drafted notes, and nothing else |
| MatchReview.ReviewInTable | src/components/admin/MatchReview.tsx:66-94 | only the reviewed match changes |
| MatchReview.ReviewedMatchLeavesTheList | src/components/admin/MatchReview.tsx:66-94 | after a review the match leaves the pending list and every other pending match stays |
| MatchReview.DropDraft | src/components/admin/MatchReview.tsx:84-88 | the reviewed match's draft is removed and every other draft is kept |
| MatchReview.DropDraftClearsOnlyThatBox | src/components/admin/MatchReview.tsx:84-88 | the reviewed box shows nothing and every other box is unchanged |
| MyItems.Open | frontend/src/pages/MyItems.tsx:60-69 | without a session the page asks to sign in, and otherwise loads that user's items |
| MyItems.AfterDelete | frontend/src/pages/MyItems.tsx:119-133 | a failed delete changes nothing; a successful one removes exactly the rows with that id |
| MyItems.DeleteRemovesExactlyThatId | frontend/src/pages/MyItems.tsx:119-133 | a delete removes as many rows as carry the id |
| MyItems.DeletingAnAbsentIdChangesNothing | frontend/src/pages/MyItems.tsx:119-133 | deleting an id no row has leaves the list as it was |
| MyItems.SetClaimStatus | frontend/src/pages/MyItems.tsx:135-149 | only the claims with the id get the new status |
| MyItems.DecisionOffered | frontend/src/pages/MyItems.tsx:362 | the owner's approve and reject buttons are shown for a pending claim, never for an approved, rejected or status-less one |
| MyItems.OwnerDecisionIsFinal | frontend/src/pages/MyItems.tsx:362-377 | after the owner approves or rejects, the claim no longer offers the decision |
| MyItems.ClaimBadge | frontend/src/pages/MyItems.tsx:292-298 | approved claims get the default badge, rejected ones the destructive one |
| MyItems.PendingClaimsShowOutline | frontend/src/pages/MyItems.tsx:292-298 | a claim awaiting a decision shows the outline badge, and a decided one never does |
| FeatureAccess.CurrentRole | frontend/src/pages/Features.tsx:56 | the viewer is "loading" exactly while the role loads, then a guest without a role, else the role |
| FeatureAccess.CanAccess | frontend/src/pages/Features.tsx:230-235 | nothing is open while loading; otherwise the viewer's column of the table decides |
| FeatureAccess.ReportingIsSplitByRole | frontend/src/pages/Features.tsx:60-214 | only staff report found items, and everyone but staff reports lost items |
| FeatureAccess.StaffSeeEverythingButLostReports | frontend/src/pages/Features.tsx:60-214 | staff may use every listed feature but lost reports; guests only browsing and lost reports |
| FeatureAccess.Badge | frontend/src/pages/Features.tsx:216-228 | each badge is chosen by exactly its condition on the access flags |
| FeatureAccess.BadgesDescribeTheTable | frontend/src/pages/Features.tsx:216-228 | on every listed feature the badge names exactly the roles with access |
| FeatureAccess.BadgeIgnoresGuestsBelowTheTop | frontend/src/pages/Features.tsx:216-228 | an unlisted pattern, staff and guests without students, would be mislabelled "Staff Only" |
| FeatureAccess.Button | frontend/src/pages/Features.tsx:278-326 | the card shows "restricted" without access, "sign in" when an account is missing, else the feature button |
| FeatureAccess.GuestsNeverAskedToSignIn | frontend/src/pages/Features.tsx:316-326 | no listed feature shows a guest the sign-in prompt, and while loading every card is restricted |
| Navbar.CurrentPath | frontend/src/components/Navbar.tsx:68 | the bar judges a pending navigation when there is one, else the current path and query |
| Navbar.ShowStaffNav | frontend/src/components/Navbar.tsx:58-63 | signed-in staff always get the staff links, and so does anyone on an admin path; they are hidden only when the pending location is not an admin route either |
| Navbar.StaffNavForStaffOrAdminRoutes | frontend/src/components/Navbar.tsx:58-63 | staff always get the staff links; others only on or heading to an admin route |
| Navbar.QueryTargetActive | frontend/src/components/Navbar.tsx:71-88 | a lit target's base path starts the location; with a query, every target parameter has its value there; without one, a target with parameters is never lit |
| Navbar.CheckActiveAsWritten | frontend/src/components/Navbar.tsx:70-95 | a target without a query is lit exactly on its own location, and a target with one only under its base path |
| Navbar.CheckActive | frontend/src/components/Navbar.tsx:70-95 | as written for targets without a query, and the Items target is lit on the bare dashboard path |
| Navbar.TabLinkNeedsAQuery | frontend/src/components/Navbar.tsx:70-88 | a tab link is never lit on a location without a query |
| Navbar.PlainLinkNeedsExactPath | frontend/src/components/Navbar.tsx:89-94 | a link without a query is lit exactly on its own location |
| Navbar.RawPrefixLightsItemsOnReports | frontend/src/components/Navbar.tsx:72-87 | the base path is compared as a raw prefix, so the reports page with an items query lights Items |
| Navbar.ItemsAndClaimsExclusive | frontend/src/components/Navbar.tsx:97-102 | Items and Claims are never lit together |
| Navbar.BareAdminLightsNothingAsWritten | frontend/src/components/Navbar.tsx:70-95 | as written, the bare dashboard path lights no link |
| Navbar.BareAdminLightsItems | frontend/src/components/Navbar.tsx:90 | with the special case first, the bare dashboard path lights Items alone |
| Navbar.CorrectionOnlyAtBareAdmin | frontend/src/components/Navbar.tsx:70-95 | the correction changes the verdict only for Items on the bare dashboard path |
| HomePage.IsStaff | frontend/src/pages/Index.tsx:86-90 | no one counts as staff until session and role have loaded, then exactly a signed-in staff member |
| HomePage.Actions | frontend/src/pages/Index.tsx:175-265 | the quick-action section is shown exactly to those not counted as staff; each button has its condition |
| HomePage.ButtonsExcludeEachOther | frontend/src/pages/Index.tsx:175-265 | the two report buttons never appear together, and exactly one of My Items and Sign In does |
| HomePage.StaffButtonsVisibleOnlyWhileLoading | frontend/src/pages/Index.tsx:175-265 | staff buttons appear in the section only while session or role is loading, and they can appear then |
| HomePage.NonStaffSeeReportLost | frontend/src/pages/Index.tsx:175-265 | a visitor who is not staff always sees the section with Report Lost and without Report Found |
| Reports.TallyOf | src/pages/Reports.tsx:62-65 | the reduced tally's counts add up to the number of rows, and it is empty exactly for no rows |
| Reports.Bump | src/pages/Reports.tsx:63 | counting one more key adds it at the end if new, and raises its count alone by one |
| Reports.FirstOccurrences | src/pages/Reports.tsx:67 | the keys in order of first appearance, each once |
| Reports.TallyCounts | src/pages/Reports.tsx:62-70 | the tally lists keys in order of first appearance, counts each key's occurrences, and totals the input length |
| Reports.TallyEntries | src/pages/Reports.tsx:67-70 | every chart entry's count is its key's number of occurrences, at least one |
| Reports.ColumnOccurrences | src/pages/Reports.tsx:62-65 | a key's occurrences in a column are the rows selected by that key |
| Reports.CategoryCountIsActiveItemsOfIt | src/pages/Reports.tsx:55-65 | a category's count is the number of active items in it |
| Reports.CategoryShownIffPresent | src/pages/Reports.tsx:55-70 | a category appears in the chart exactly when some active item has it |
| Reports.TotalItemsCountsActiveItems | src/pages/Reports.tsx:226 | the total card equals the number of active items |
| Reports.CategoryNamesDiffer | frontend/src/integrations/supabase/types.ts:375-384 | distinct categories have distinct labels, so no two chart bars merge |
| Reports.CategoryCounts | src/pages/Reports.tsx:55-70 | the category chart's counts add up to the number of active items |
| Reports.ClaimStatsOf | src/pages/Reports.tsx:81-92 | the total counts every claim and each status counter counts its claims; the three never exceed the total |
| Reports.UnknownStatusCountsOnlyInTotal | src/pages/Reports.tsx:84-87 | a claim with another status raises only the total |
| Reports.AlgorithmCounts | src/pages/Reports.tsx:127-137 | the algorithm chart's counts add up to the number of matches |
| Reports.VerificationCounts | src/pages/Reports.tsx:144-152 | the verification tally's counts add up to the number of claims |
| Reports.VerificationStats | src/pages/Reports.tsx:144-157 | the labelled verification chart still adds up to the number of claims |
| Reports.SuccessRate | src/pages/Reports.tsx:196-197 | the rate lies between 0 and 100; it is 0 exactly without approvals and 100 exactly when every claim is approved |
| Reports.ManualGathersMissingAlgorithms | src/pages/Reports.tsx:128-137 | "manual" counts matches with no algorithm plus those named manual; the chart covers every match with no empty key |
| Reports.PendingGathersMissingStatuses | src/pages/Reports.tsx:148-152 | "pending" counts claims with no verification plus those already pending |
| Reports.Labelled | src/pages/Reports.tsx:154-157 | labelling capitalises each key and keeps the counts and order |
| Reports.LabellingKeepsTotal | src/pages/Reports.tsx:154-157 | capitalising the labels keeps the chart's total |
| Reports.VerificationChartCoversEveryClaim | src/pages/Reports.tsx:144-157 | the verification chart's counts add up to the number of claims, with capitalised labels |
| Reports.CsvLines | src/pages/Reports.tsx:168-174 | the export has a header line and then one line per chart entry, in order |
| Reports.Csv | src/pages/Reports.tsx:168-174 | the export starts with the header line, and is only the header when there are no entries |
| Reports.CsvRoundTrip | src/pages/Reports.tsx:168-174 | splitting the export on newlines and commas gives back each key and its count, when no key holds a separator |
| Reports.CategoryCsvRoundTrip | src/pages/Reports.tsx:168-174 | the category export splits back into its header and one line per category shown |
| AuthForms.SignUpError | src/pages/Auth.tsx:15-22 | sign-up passes exactly with a 2-character name, a valid email and a 6-character password, reporting the first failure |
| AuthForms.SignUp | src/pages/Auth.tsx:55-99 | the request is sent exactly when valid; the role row is written for a returned user; success shows only when the role row did not fail, and resets the form |
| AuthForms.RoleFailureSuppressesSuccess | src/pages/Auth.tsx:80-84 | a failed role insert shows only the role error and keeps the form |
| AuthForms.InvalidSignUpSendsNothing | src/pages/Auth.tsx:57-60 | a rejected form sends nothing and shows the first schema error |
| AuthForms.InitialSignUpIsRefused | src/pages/Auth.tsx:42-47 | the empty starting form is refused for its name and defaults to student |
| AuthForms.SuccessResetIsTheStartingForm | src/pages/Auth.tsx:88-89 | success leaves the form as it started, and a repeat keeps it there |
| AuthForms.SignInError | src/pages/Auth.tsx:24-27 | sign-in passes exactly with a valid email and a non-empty password, email reported first |
| AuthForms.SignIn | src/pages/Auth.tsx:101-126 | the request is sent exactly when valid, and the user goes home exactly on success |
| AuthForms.SignUpCredentialsPassSignIn | src/pages/Auth.tsx:15-27 | credentials the sign-up schema accepts also pass the sign-in schema |

## Left out

- Network, storage and navigation effects are left out: toasts, loading flags, `navigate`, image upload with its random file name, and geolocation with its haversine distance. Each query becomes a function over a table given as a sequence; the database's row order is that sequence's order.
- Dates are counted in UTC days, so local time zones and daylight saving are not modelled. `new Date(s)` is a parameter (`DateParser`), and so is the formatting of a day as an ISO date.
- Lower-casing and upper-casing cover ASCII letters only. Lengths count characters rather than UTF-16 code units. URL percent-encoding is not modelled: the browse filters round-trip through the parameter list, and parsing written parameters gives them back only when no name holds `&` or `=` and no value holds `&`.
- zod's email check is a parameter (`EmailTest`), not a re-implementation. The sign-up role enum check is left out because the typed form state cannot hold any other role.
- HTML `required` attributes are browser behaviour and are not modelled.
- Reports.SuccessRate: models the percentage as an exact real number, not the `toFixed(1)` string the card shows.
- Reports.TallyCounts: keys keep first-insertion order, which assumes no key is integer-like. Categories never are, but `match_algorithm` and `verification_status` are free text; for a key such as "1", `Object.entries` would list it first and the chart order would differ from the model's.
- Reports.Labelled: capitalising can map two stored keys ("pending" and "Pending") to the same label; the model keeps both rows, as the chart would.
- The monthly statistics and the chart rendering are presentation and are not modelled; neither are the match-scoring functions, which run in the database.
- Row-level security and the `useUserRole` hook's network call are not modelled; the role and its loading flag are parameters.
- Display fallbacks such as `claim.items?.title \|\| "Item"` and the storage page's status badge are not modelled.
- Match scores are integers in the model. The `match_score` column is a JavaScript number, so fractional scores are not modelled.
- Navbar: the timeout that clears a pending navigation is not modelled; the pending location is a parameter.
- Storage.StorageCounts: states the partition of the two storage cards, the bound on the expired card and when each card is non-zero, not each count's exact value.
- Dashboard.ItemsThisWeek: states the bound and, through its lemmas, the exclusive week boundary and monotonicity in time, not the exact count.
- The older `src/` Index, Navbar, SearchFilters and ItemCard, the DailyContent widget and the BulkRelease page are outside this model; only the older Browse page is modelled, for comparison.

## Findings

| source | as written | input that shows it | evidently intended | confidence | as-written member | corrected member |
|---|---|---|---|---|---|---|
| frontend/src/pages/ReportItem.tsx:552 | the row's status reads `isStaff`, which is declared only in the form-fields component. Inside the submit handler the name is unbound, so a `ReferenceError` is thrown after validation and no row is inserted | a lost report by a signed-in student, with a title of 3 or more characters and a description of 10 or more | the status chosen on the staff form, for a staff user with a status set; otherwise the page's status | not executed | ReportItem.SubmitAsWritten (ReportItem.AsWrittenRejectsAWellFormedReport) | ReportItem.Submit (ReportItem.RowStatusIsSubmittedStatus) |
| src/components/admin/ClaimDetailsDialog.tsx:19-20 | the notes and verification are seeded with `useState` from the claim the dialog mounts with, and nothing resets them. The dashboard renders the dialog without a `key` and never clears its selected claim, so opening another claim keeps the mounted dialog and its fields. A refetch after a save remounts the dialog, but from the selected claim as it was before the save | open claim A with notes "x", close it, open claim B with no notes, press Save; or open claim A, type notes "y", save, and open A again from the refreshed table | the dialog shows, and Save writes, the stored notes and verification of the claim it is opened for | not executed | ClaimReview.StepAsWritten (ClaimReview.NotesLeakIntoTheNextClaimAsWritten, ClaimReview.ReopenedClaimShowsNotesBeforeSaveAsWritten) | ClaimReview.Step (ClaimReview.SecondClaimShowsItsOwnDetails, ClaimReview.SavedDetailsShowOnReopen, ClaimReview.SavingUnchangedDetails) |
| frontend/src/components/Navbar.tsx:90 | the special case lighting the Items link on the bare "/admin" path comes after the branch for targets with a query. The Items target has a query, so that branch returns first and the special case is unreachable | current location "/admin" | the Items link is lit on the dashboard's default tab | not executed | Navbar.CheckActiveAsWritten (Navbar.BareAdminLightsNothingAsWritten) | Navbar.CheckActive (Navbar.BareAdminLightsItems) |
