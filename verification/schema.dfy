/**
 * The database's enums and the rows the pages read and write: items, claims,
 * matches and audit-log entries. Nullable columns are `Option`s.
 */
module Schema {
  import opened Wrappers
  import Seqs

  // ---------------------------------------------------------------- enums

  /** `app_role`: a signed-in user is staff or a student; a guest has no role at all. */
  datatype AppRole = Staff | Student

  /** `item_category`. */
  datatype ItemCategory = Electronics | Clothing | Accessories | Books | Keys | Bags | Documents | Sports | Other

  /** `item_status`. */
  datatype ItemStatus = Lost | Found | Claimed | Returned

  /** The role the pages see: `None` for a guest, and also while the role is still loading. */
  type Role = Option<AppRole>

  function RoleName(r: AppRole): string {
    match r
    case Staff => "staff"
    case Student => "student"
  }

  function CategoryName(c: ItemCategory): string {
    match c
    case Electronics => "electronics"
    case Clothing => "clothing"
    case Accessories => "accessories"
    case Books => "books"
    case Keys => "keys"
    case Bags => "bags"
    case Documents => "documents"
    case Sports => "sports"
    case Other => "other"
  }

  function StatusName(s: ItemStatus): string {
    match s
    case Lost => "lost"
    case Found => "found"
    case Claimed => "claimed"
    case Returned => "returned"
  }

  /** The enum members in the order the type union declares them. */
  const AllRoles: seq<AppRole> := [Staff, Student]
  const AllCategories: seq<ItemCategory> := [Electronics, Clothing, Accessories, Books, Keys, Bags, Documents, Sports, Other]
  const AllStatuses: seq<ItemStatus> := [Lost, Found, Claimed, Returned]

  /** The runtime `Constants.public.Enums` arrays. */
  const AppRoleValues: seq<string> := ["staff", "student"]
  const ItemCategoryValues: seq<string> :=
    ["electronics", "clothing", "accessories", "books", "keys", "bags", "documents", "sports", "other"]
  const ItemStatusValues: seq<string> := ["lost", "found", "claimed", "returned"]

  /** Reads a database enum label; anything else is not a member. */
  function ParseRole(t: string): (r: Option<AppRole>)
    ensures r.Some? ==> RoleName(r.value) == t
  {
    if t == "staff" then Some(Staff) else if t == "student" then Some(Student) else None
  }

  function ParseCategory(t: string): (r: Option<ItemCategory>)
    ensures r.Some? ==> CategoryName(r.value) == t
  {
    if t == "electronics" then Some(Electronics)
    else if t == "clothing" then Some(Clothing)
    else if t == "accessories" then Some(Accessories)
    else if t == "books" then Some(Books)
    else if t == "keys" then Some(Keys)
    else if t == "bags" then Some(Bags)
    else if t == "documents" then Some(Documents)
    else if t == "sports" then Some(Sports)
    else if t == "other" then Some(Other)
    else None
  }

  function ParseStatus(t: string): (r: Option<ItemStatus>)
    ensures r.Some? ==> StatusName(r.value) == t
  {
    if t == "lost" then Some(Lost)
    else if t == "found" then Some(Found)
    else if t == "claimed" then Some(Claimed)
    else if t == "returned" then Some(Returned)
    else None
  }

  /** Every enum member's label reads back as that member. */
  lemma EnumLabelsRoundTrip()
    ensures forall r: AppRole :: ParseRole(RoleName(r)) == Some(r)
    ensures forall c: ItemCategory :: ParseCategory(CategoryName(c)) == Some(c)
    ensures forall s: ItemStatus :: ParseStatus(StatusName(s)) == Some(s)
  {
  }

  /** A label is a member exactly when it appears in the runtime constant array. */
  lemma EnumLabelsAreTheConstants(t: string)
    ensures ParseRole(t).Some? <==> t in AppRoleValues
    ensures ParseCategory(t).Some? <==> t in ItemCategoryValues
    ensures ParseStatus(t).Some? <==> t in ItemStatusValues
  {
  }

  /** The constant arrays hold, in declaration order, the labels of the union's members: two roles, nine categories and four statuses. */
  lemma ConstantsListTheEnums()
    ensures |AppRoleValues| == |AllRoles| == 2
    ensures |ItemCategoryValues| == |AllCategories| == 9
    ensures |ItemStatusValues| == |AllStatuses| == 4
    ensures forall k :: 0 <= k < |AllRoles| ==> AppRoleValues[k] == RoleName(AllRoles[k])
    ensures forall k :: 0 <= k < |AllCategories| ==> ItemCategoryValues[k] == CategoryName(AllCategories[k])
    ensures forall k :: 0 <= k < |AllStatuses| ==> ItemStatusValues[k] == StatusName(AllStatuses[k])
  {
  }

  /** Every member of each enum is listed. */
  lemma EnumListsAreComplete()
    ensures forall r: AppRole :: r in AllRoles
    ensures forall c: ItemCategory :: c in AllCategories
    ensures forall s: ItemStatus :: s in AllStatuses
  {
    forall r: AppRole ensures r in AllRoles {
      assert AllRoles[if r.Staff? then 0 else 1] == r;
    }
    forall c: ItemCategory ensures c in AllCategories {
      match c
      case Electronics => assert AllCategories[0] == c;
      case Clothing => assert AllCategories[1] == c;
      case Accessories => assert AllCategories[2] == c;
      case Books => assert AllCategories[3] == c;
      case Keys => assert AllCategories[4] == c;
      case Bags => assert AllCategories[5] == c;
      case Documents => assert AllCategories[6] == c;
      case Sports => assert AllCategories[7] == c;
      case Other => assert AllCategories[8] == c;
    }
    forall s: ItemStatus ensures s in AllStatuses {
      match s
      case Lost => assert AllStatuses[0] == s;
      case Found => assert AllStatuses[1] == s;
      case Claimed => assert AllStatuses[2] == s;
      case Returned => assert AllStatuses[3] == s;
    }
  }

  /** No label is listed twice. */
  lemma ConstantsAreDistinct()
    ensures Seqs.Distinct(AppRoleValues) && Seqs.Distinct(ItemCategoryValues) && Seqs.Distinct(ItemStatusValues)
  {
    RoleLabelsDistinct();
    CategoryLabelsDistinct();
    StatusLabelsDistinct();
  }

  // Each label parses back to its own member, and the members are distinct.
  lemma RoleLabelsDistinct()
    ensures Seqs.Distinct(AppRoleValues)
  {
    assert forall k :: 0 <= k < |AllRoles| ==> ParseRole(AppRoleValues[k]) == Some(AllRoles[k]);
  }

  lemma CategoryLabelsDistinct()
    ensures Seqs.Distinct(ItemCategoryValues)
  {
    assert forall k :: 0 <= k < |AllCategories| ==> ParseCategory(ItemCategoryValues[k]) == Some(AllCategories[k]);
  }

  lemma StatusLabelsDistinct()
    ensures Seqs.Distinct(ItemStatusValues)
  {
    assert forall k :: 0 <= k < |AllStatuses| ==> ParseStatus(ItemStatusValues[k]) == Some(AllStatuses[k]);
  }

  // ---------------------------------------------------------------- rows

  /** A row of `items`. Dates are kept as the strings the database returns. */
  datatype Item = Item(
    id: string,
    title: string,
    description: string,
    category: ItemCategory,
    status: ItemStatus,
    location: string,
    dateLostFound: string,
    color: Option<string>,
    venue: Option<string>,
    container: Option<string>,
    contactInfo: Option<string>,
    identifyingDetails: Option<string>,
    imageUrl: Option<string>,
    isActive: Option<bool>,
    isAnonymous: Option<bool>,
    userId: Option<string>,
    storageLocation: Option<string>,
    storageDate: Option<string>,
    expiryDate: Option<string>,
    createdAt: Option<string>)

  /**
   * The `items` insert a report writes. Title, description, category, location, date and
   * status are required; the rest may be null. `is_active` is not written, so the database
   * default applies. Category and status are the form's strings; the database enum rejects
   * anything else.
   */
  datatype ItemInsert = ItemInsert(
    status: string,
    title: string,
    description: string,
    category: string,
    location: string,
    dateLostFound: string,
    contactInfo: Option<string>,
    imageUrl: Option<string>,
    color: Option<string>,
    venue: Option<string>,
    container: Option<string>,
    identifyingDetails: Option<string>,
    expiryDate: Option<string>,
    userId: Option<string>,
    isAnonymous: bool)

  /** A row of `claims`. `status` and `verification_status` are free, nullable strings. */
  datatype Claim = Claim(
    id: string,
    itemId: string,
    claimantId: Option<string>,
    firstName: Option<string>,
    lastName: Option<string>,
    email: Option<string>,
    phone: Option<string>,
    message: string,
    status: Option<string>,
    verificationStatus: Option<string>,
    staffNotes: Option<string>,
    referenceNumber: Option<string>,
    lostDate: Option<string>,
    lostLocation: Option<string>,
    venue: Option<string>)

  /** A `claims` insert; `None` is a null or a column left to its database default. */
  datatype ClaimInsert = ClaimInsert(
    itemId: string,
    claimantId: Option<string>,
    firstName: Option<string>,
    lastName: Option<string>,
    phone: Option<string>,
    email: Option<string>,
    message: string,
    lostDate: Option<string>,
    lostLocation: Option<string>,
    venue: Option<string>,
    status: Option<string>,
    verificationStatus: Option<string>)

  /** A row of `matches`: a scored lost/found pairing produced outside this application. */
  datatype Match = Match(
    id: string,
    score: int,
    status: string,
    notes: Option<string>,
    algorithm: Option<string>,
    reviewedBy: Option<string>,
    reviewedAt: Option<string>)

  /** A row of `audit_log`, with the two text columns the log page searches. */
  datatype AuditEntry = AuditEntry(id: string, action: Option<string>, actionType: Option<string>)

  /** JavaScript truthiness of a nullable string: present and not empty. */
  predicate Truthy(o: Option<string>) {
    o.Some? && o.value != ""
  }

  /** `s || null`: the empty string is stored as null. */
  function OrNull(s: string): (r: Option<string>)
    ensures r.None? <==> s == ""
    ensures r.Some? ==> r.value == s
  {
    if s == "" then None else Some(s)
  }

  /** `message || fallback`: an error's message, or the page's fallback text when the message is empty. */
  function OrFallback(message: string, fallback: string): (r: string)
    ensures message != "" ==> r == message
    ensures message == "" ==> r == fallback
  {
    if message != "" then message else fallback
  }
}
