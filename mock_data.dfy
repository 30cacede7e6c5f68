/**
 * The portal's in-memory data layer: the record types of loan applications,
 * the query helpers over a list of applications, badge colours, status
 * formatting and the demo credential check.
 */
module MockData {
  import opened Wrappers
  import opened Sequences
  import opened Strings

  // ---------------------------------------------------------------------------
  // Record types
  // ---------------------------------------------------------------------------

  datatype DocumentStatus =
    | Pending
    | Uploaded
    | UnderReview
    | Approved
    | Rejected
    | ResubmitRequested
  {
    /** The string the status is stored as. */
    function Spelling(): string
    {
      match this
      case Pending => "pending"
      case Uploaded => "uploaded"
      case UnderReview => "under_review"
      case Approved => "approved"
      case Rejected => "rejected"
      case ResubmitRequested => "resubmit_requested"
    }
  }

  datatype ApplicationStatus =
    | DocumentCollection
    | UnderReview
    | Approved
    | AdditionalInfoNeeded
    | OnHold
    | Withdrawn
  {
    function Spelling(): string
    {
      match this
      case DocumentCollection => "document_collection"
      case UnderReview => "under_review"
      case Approved => "approved"
      case AdditionalInfoNeeded => "additional_info_needed"
      case OnHold => "on_hold"
      case Withdrawn => "withdrawn"
    }
  }

  datatype Document = Document(
    id: string,
    name: string,
    category: string,
    status: DocumentStatus,
    uploadedDate: Option<string>,
    reviewedDate: Option<string>,
    fileSize: Option<string>,
    fileType: Option<string>,
    notes: Option<string>,
    required: bool)

  datatype ActivityType =
    | DocumentUploaded
    | StatusChange
    | CommentAdded
    | DocumentApproved
    | DocumentRejected

  datatype ActivityLog = ActivityLog(
    id: string,
    timestamp: string,
    kind: ActivityType,
    user: string,
    description: string)

  datatype Message = Message(
    id: string,
    sender: string,
    timestamp: string,
    subject: string,
    body: string,
    read: bool)

  datatype LoanType = Purchase | Refinance | BridgeLoan | Construction

  datatype LoanOfficer = LoanOfficer(name: string, email: string, phone: string)

  datatype LoanApplication = LoanApplication(
    id: string,
    propertyAddress: string,
    loanAmount: string,
    loanType: LoanType,
    status: ApplicationStatus,
    submittedDate: string,
    lastUpdated: string,
    documentsRequired: int,
    documentsSubmitted: int,
    documentsApproved: int,
    completionPercentage: int,
    documents: seq<Document>,
    activity: seq<ActivityLog>,
    messages: seq<Message>,
    loanOfficer: LoanOfficer)

  // ---------------------------------------------------------------------------
  // Query helpers, over any list of applications
  // ---------------------------------------------------------------------------

  /** The first application with the given id; None exactly when no application has it. */
  function GetApplicationById(apps: seq<LoanApplication>, id: string): (r: Option<LoanApplication>)
    ensures r.None? <==> forall i :: 0 <= i < |apps| ==> apps[i].id != id
    ensures r.Some? ==> r.value.id == id
    ensures r.Some? ==>
      exists i :: 0 <= i < |apps| && apps[i] == r.value && forall j :: 0 <= j < i ==> apps[j].id != id
  {
    Find(apps, (a: LoanApplication) => a.id == id)
  }

  /** The applications in the given status, in list order, each as often as it occurs. */
  function GetApplicationsByStatus(apps: seq<LoanApplication>, status: ApplicationStatus): (r: seq<LoanApplication>)
    ensures IsSubsequence(r, apps)
    ensures forall i :: 0 <= i < |r| ==> r[i].status == status
    ensures forall a :: a in apps && a.status == status ==> multiset(r)[a] == multiset(apps)[a]
  {
    Filter(apps, (a: LoanApplication) => a.status == status)
  }

  /** The documents of one application that are in the given status; [] for an unknown id. */
  function GetDocumentsByStatus(apps: seq<LoanApplication>, applicationId: string, status: DocumentStatus): (r: seq<Document>)
    ensures GetApplicationById(apps, applicationId).None? ==> r == []
    ensures GetApplicationById(apps, applicationId).Some? ==>
      var docs := GetApplicationById(apps, applicationId).value.documents;
      && IsSubsequence(r, docs)
      && (forall i :: 0 <= i < |r| ==> r[i].status == status)
      && (forall d :: d in docs && d.status == status ==> multiset(r)[d] == multiset(docs)[d])
  {
    match GetApplicationById(apps, applicationId)
    case None => []
    case Some(app) => Filter(app.documents, (d: Document) => d.status == status)
  }

  /** The unread messages of one application; [] for an unknown id. */
  function GetUnreadMessages(apps: seq<LoanApplication>, applicationId: string): (r: seq<Message>)
    ensures GetApplicationById(apps, applicationId).None? ==> r == []
    ensures GetApplicationById(apps, applicationId).Some? ==>
      var msgs := GetApplicationById(apps, applicationId).value.messages;
      && IsSubsequence(r, msgs)
      && (forall i :: 0 <= i < |r| ==> !r[i].read)
      && (forall m :: m in msgs && !m.read ==> multiset(r)[m] == multiset(msgs)[m])
  {
    match GetApplicationById(apps, applicationId)
    case None => []
    case Some(app) => Filter(app.messages, (m: Message) => !m.read)
  }

  /**
   * The first `limit` activity entries of one application (`slice(0, limit)`, so a
   * negative limit drops that many entries from the end); [] for an unknown id.
   */
  function GetRecentActivity(apps: seq<LoanApplication>, applicationId: string, limit: int := 5): (r: seq<ActivityLog>)
    ensures GetApplicationById(apps, applicationId).None? ==> r == []
    ensures GetApplicationById(apps, applicationId).Some? ==>
      var log := GetApplicationById(apps, applicationId).value.activity;
      && |r| <= |log| && r == log[..|r|]
      && (0 <= limit ==> |r| == if limit < |log| then limit else |log|)
      && (limit < 0 ==> |r| == if |log| + limit < 0 then 0 else |log| + limit)
  {
    match GetApplicationById(apps, applicationId)
    case None => []
    case Some(app) => SlicePrefix(app.activity, limit)
  }

  // ---------------------------------------------------------------------------
  // Badge colours
  // ---------------------------------------------------------------------------

  const BadgeColors: set<string> := {"warning", "info", "success", "secondary", "error"}

  const ApplicationStatusColors: map<string, string> := map[
    "document_collection" := "warning",
    "under_review" := "info",
    "approved" := "success",
    "additional_info_needed" := "warning",
    "on_hold" := "secondary",
    "withdrawn" := "secondary"
  ]

  const DocumentStatusColors: map<string, string> := map[
    "pending" := "secondary",
    "uploaded" := "info",
    "under_review" := "info",
    "approved" := "success",
    "rejected" := "error",
    "resubmit_requested" := "warning"
  ]

  /**
   * The colour table as the object literal builds it: the document entries come
   * later, so on a repeated key they win, as the right operand of `+` does.
   */
  const StatusColors: map<string, string> := ApplicationStatusColors + DocumentStatusColors

  /** `colorMap[status] || 'secondary'`: total, and always one of the five badge colours. */
  function GetStatusColor(status: string): (color: string)
    ensures color in BadgeColors
    ensures status !in StatusColors ==> color == "secondary"
    ensures status in StatusColors ==> color == StatusColors[status]
  {
    if status in StatusColors && StatusColors[status] != "" then StatusColors[status] else "secondary"
  }

  /** The badge colour of each application status, stated per status. */
  function ApplicationBadge(s: ApplicationStatus): string
  {
    match s
    case DocumentCollection => "warning"
    case UnderReview => "info"
    case Approved => "success"
    case AdditionalInfoNeeded => "warning"
    case OnHold => "secondary"
    case Withdrawn => "secondary"
  }

  /** The badge colour of each document status, stated per status. */
  function DocumentBadge(s: DocumentStatus): string
  {
    match s
    case Pending => "secondary"
    case Uploaded => "info"
    case UnderReview => "info"
    case Approved => "success"
    case Rejected => "error"
    case ResubmitRequested => "warning"
  }

  lemma ApplicationStatusColor(s: ApplicationStatus)
    ensures GetStatusColor(s.Spelling()) == ApplicationBadge(s)
  {
    assert s.Spelling() in ApplicationStatusColors;
    if s.Spelling() in DocumentStatusColors {
      assert s == ApplicationStatus.UnderReview || s == ApplicationStatus.Approved;
    }
  }

  lemma DocumentStatusColor(s: DocumentStatus)
    ensures GetStatusColor(s.Spelling()) == DocumentBadge(s)
  {
    assert s.Spelling() in DocumentStatusColors;
  }

  /** Two tables that agree on their shared keys can be merged in either order. */
  lemma MergeOrderIrrelevant(m1: map<string, string>, m2: map<string, string>)
    requires forall k :: k in m1 && k in m2 ==> m1[k] == m2[k]
    ensures m1 + m2 == m2 + m1
  {
    assert (m1 + m2).Keys == (m2 + m1).Keys;
    forall k | k in m1 + m2
      ensures (m1 + m2)[k] == (m2 + m1)[k]
    {
    }
  }

  /**
   * The keys the two status enums share carry the same colour in both halves of
   * the table, so the repeated keys do not conflict: the order of the halves is immaterial.
   */
  lemma SharedStatusKeysAgree()
    ensures forall k :: k in ApplicationStatusColors && k in DocumentStatusColors ==>
      ApplicationStatusColors[k] == DocumentStatusColors[k]
    ensures StatusColors == DocumentStatusColors + ApplicationStatusColors
  {
    forall k | k in ApplicationStatusColors && k in DocumentStatusColors
      ensures ApplicationStatusColors[k] == DocumentStatusColors[k]
    {
      assert k == "under_review" || k == "approved";
    }
    MergeOrderIrrelevant(ApplicationStatusColors, DocumentStatusColors);
  }

  /** A string that spells no status of either kind gets the fallback colour. */
  lemma UnknownStatusIsSecondary(status: string)
    requires forall a: ApplicationStatus :: a.Spelling() != status
    requires forall d: DocumentStatus :: d.Spelling() != status
    ensures GetStatusColor(status) == "secondary"
  {
    assert DocumentCollection.Spelling() != status;
    assert ApplicationStatus.UnderReview.Spelling() != status;
    assert ApplicationStatus.Approved.Spelling() != status;
    assert AdditionalInfoNeeded.Spelling() != status;
    assert OnHold.Spelling() != status;
    assert Withdrawn.Spelling() != status;
    assert Pending.Spelling() != status;
    assert Uploaded.Spelling() != status;
    assert Rejected.Spelling() != status;
    assert ResubmitRequested.Spelling() != status;
  }

  // ---------------------------------------------------------------------------
  // Status formatting
  // ---------------------------------------------------------------------------

  /** `word.charAt(0).toUpperCase() + word.slice(1)`. */
  function Capitalise(word: string): string
  {
    if |word| == 0 then "" else [ToUpperCase(word[0])] + word[1..]
  }

  /** `words.map(Capitalise)`. */
  function CapitaliseAll(words: seq<string>): (r: seq<string>)
    ensures |r| == |words|
  {
    if |words| == 0 then [] else [Capitalise(words[0])] + CapitaliseAll(words[1..])
  }

  /** `status.split('_').map(capitalise).join(' ')`. */
  function FormatStatus(status: string): (r: string)
    ensures r == TitleCase(status, true)
    ensures |r| == |status|
  {
    var words := Split(status, '_');
    assert CapitaliseAll(words) == [Capitalise(words[0])] + CapitaliseAll(words[1..]);
    FormatMatchesTitleCase(status, true);
    TitleCaseLength(status, true);
    Join(CapitaliseAll(words), ' ')
  }

  /**
   * Title case stated character by character: '_' becomes ' ', a character that
   * starts a word (at the start, or after '_') is upper-cased, the rest are kept.
   */
  function TitleCase(s: string, atWordStart: bool): string
  {
    if |s| == 0 then ""
    else if s[0] == '_' then " " + TitleCase(s[1..], true)
    else [if atWordStart then ToUpperCase(s[0]) else s[0]] + TitleCase(s[1..], false)
  }

  lemma {:induction false} FormatMatchesTitleCase(s: string, atWordStart: bool)
    ensures
      var words := Split(s, '_');
      Join([if atWordStart then Capitalise(words[0]) else words[0]] + CapitaliseAll(words[1..]), ' ')
        == TitleCase(s, atWordStart)
  {
    if |s| > 0 {
      var rest := Split(s[1..], '_');
      FormatMatchesTitleCase(s[1..], true);
      FormatMatchesTitleCase(s[1..], false);
      if s[0] == '_' {
        assert ([""] + rest)[1..] == rest;
        assert CapitaliseAll(rest) == [Capitalise(rest[0])] + CapitaliseAll(rest[1..]);
      } else {
        var head := [s[0]] + rest[0];
        var c := if atWordStart then ToUpperCase(s[0]) else s[0];
        assert (if atWordStart then Capitalise(head) else head) == [c] + rest[0];
        JoinPrependToFirst(c, [rest[0]] + CapitaliseAll(rest[1..]), ' ');
        assert ([rest[0]] + CapitaliseAll(rest[1..]))[1..] == CapitaliseAll(rest[1..]);
      }
    }
  }

  lemma {:induction false} TitleCaseAt(s: string, atWordStart: bool, i: nat)
    requires i < |s|
    ensures |TitleCase(s, atWordStart)| == |s|
    ensures TitleCase(s, atWordStart)[i] ==
      if s[i] == '_' then ' '
      else if (if i == 0 then atWordStart else s[i - 1] == '_') then ToUpperCase(s[i])
      else s[i]
  {
    if i == 0 {
      if |s| > 1 { TitleCaseAt(s[1..], s[0] == '_', 0); }
    } else {
      TitleCaseAt(s[1..], s[0] == '_', i - 1);
    }
  }

  lemma {:induction false} TitleCaseLength(s: string, atWordStart: bool)
    ensures |TitleCase(s, atWordStart)| == |s|
  {
    if |s| > 0 { TitleCaseLength(s[1..], s[0] == '_'); }
  }

  lemma FormatStatusAt(status: string, i: nat)
    requires i < |status|
    ensures |FormatStatus(status)| == |status|
    ensures FormatStatus(status)[i] ==
      if status[i] == '_' then ' '
      else if i == 0 || status[i - 1] == '_' then ToUpperCase(status[i])
      else status[i]
  {
    TitleCaseAt(status, true, i);
  }

  /**
   * formatStatus keeps the length, turns each '_' into one space, upper-cases the
   * first character of every word and leaves every other character alone.
   */
  lemma FormatStatusShape(status: string)
    ensures |FormatStatus(status)| == |status|
    ensures forall i :: 0 <= i < |status| ==>
      FormatStatus(status)[i] ==
        if status[i] == '_' then ' '
        else if i == 0 || status[i - 1] == '_' then ToUpperCase(status[i])
        else status[i]
  {
    forall i | 0 <= i < |status|
      ensures FormatStatus(status)[i] ==
        if status[i] == '_' then ' '
        else if i == 0 || status[i - 1] == '_' then ToUpperCase(status[i])
        else status[i]
    {
      FormatStatusAt(status, i);
    }
  }

  /** The strings status values are spelled in: lower-case ASCII letters and '_'. */
  ghost predicate IsSnakeCase(s: string)
  {
    forall i :: 0 <= i < |s| ==> s[i] == '_' || 'a' <= s[i] <= 'z'
  }

  /** On a snake_case status, exactly the first letter of each word comes out upper case. */
  lemma FormatStatusUpperCaseExactlyAtWordStarts(status: string)
    requires IsSnakeCase(status)
    ensures |FormatStatus(status)| == |status|
    ensures forall i :: 0 <= i < |status| ==>
      ('A' <= FormatStatus(status)[i] <= 'Z' <==> status[i] != '_' && (i == 0 || status[i - 1] == '_'))
  {
    FormatStatusShape(status);
    forall i | 0 <= i < |status|
      ensures 'A' <= FormatStatus(status)[i] <= 'Z' <==> status[i] != '_' && (i == 0 || status[i - 1] == '_')
    {
      var r := FormatStatus(status);
      FormatStatusAt(status, i);
      if status[i] == '_' {
        assert r[i] == ' ';
      } else if i == 0 || status[i - 1] == '_' {
        assert r[i] == ToUpperCase(status[i]);
      } else {
        assert r[i] == status[i];
      }
    }
  }

  lemma SplitExample(status: string)
    requires status == "resubmit_requested"
    ensures Split(status, '_') == ["resubmit", "requested"]
  {
    var first, second := "resubmit", "requested";
    assert '_' !in first && '_' !in second;
    assert status == first + "_" + second;
    SplitAfterWord(first, '_', second);
    SplitWithoutSeparator(second, '_');
  }

  lemma CapitaliseExample()
    ensures CapitaliseAll(["resubmit", "requested"]) == ["Resubmit", "Requested"]
  {
    var words := ["resubmit", "requested"];
    var caps := ["Resubmit", "Requested"];
    assert Capitalise(words[0]) == caps[0];
    assert Capitalise(words[1]) == caps[1];
    assert CapitaliseAll(words[1..][1..]) == [];
    assert CapitaliseAll(words[1..]) == caps[1..];
  }

  /** The worked example: `resubmit_requested` is shown as `Resubmit Requested`. */
  lemma FormatStatusExample(status: string)
    requires status == DocumentStatus.ResubmitRequested.Spelling()
    ensures FormatStatus(status) == "Resubmit Requested"
  {
    SplitExample(status);
    CapitaliseExample();
    var caps := ["Resubmit", "Requested"];
    assert Join(caps[1..], ' ') == "Requested";
    assert Join(caps, ' ') == caps[0] + " " + Join(caps[1..], ' ');
  }

  // ---------------------------------------------------------------------------
  // Demo login
  // ---------------------------------------------------------------------------

  datatype User = User(name: string, email: string, company: string)

  const MockUser: User := User("Sarah Johnson", "sarah.johnson@example.com", "Horizon Property Group LLC")
  const DemoPassword: string := "demo123"
  const InvalidCredentials: string := "Invalid email or password"

  datatype LoginResult = LoginResult(success: bool, user: Option<User>, error: Option<string>)

  /** The demo credential check, with its one-second delay left out. */
  function MockLogin(email: string, password: string): (r: LoginResult)
    ensures r.success <==> email == MockUser.email && password == DemoPassword
    ensures r.success <==> r.user.Some?
    ensures r.success <==> r.error.None?
    ensures r.user.Some? ==> r.user.value == MockUser
    ensures r.error.Some? ==> r.error.value == InvalidCredentials
  {
    if email == MockUser.email && password == DemoPassword then
      LoginResult(true, Some(MockUser), None)
    else
      LoginResult(false, None, Some(InvalidCredentials))
  }
}
