/** The domain records of the banking document pipeline: the two string-valued
    enumerations (category and urgency), the customer metadata and the processed
    document with its defaults. */
module Document {
  import opened Common
  import opened Text

  /** `DocumentCategory`: a string-valued enumeration with five members. */
  datatype Category = LoanApplication | AccountInquiry | Complaint | KycUpdate | General

  /** `UrgencyLevel`: a string-valued enumeration with three members. */
  datatype Urgency = High | Medium | Low

  /** The `.value` string of a category member. */
  function CategoryValue(c: Category): string
  {
    match c
    case LoanApplication => "loan_applications"
    case AccountInquiry => "account_inquiries"
    case Complaint => "complaints"
    case KycUpdate => "kyc_updates"
    case General => "general_correspondence"
  }

  /** The `.value` string of an urgency member. */
  function UrgencyValue(u: Urgency): string
  {
    match u
    case High => "high"
    case Medium => "medium"
    case Low => "low"
  }

  /** The exact set of category value strings. */
  const CategoryValues: set<string> :=
    {"loan_applications", "account_inquiries", "complaints", "kyc_updates", "general_correspondence"}

  /** The exact set of urgency value strings. */
  const UrgencyValues: set<string> := {"high", "medium", "low"}

  /** `DocumentCategory(s)`: the member whose value is `s`; any other string raises
      `ValueError` whose message is the `repr` of the string followed by
      " is not a valid DocumentCategory". */
  function ParseCategory(s: string): (r: Result<Category>)
    ensures r.Success? <==> s in CategoryValues
    ensures r.Success? ==> CategoryValue(r.value) == s
    ensures r.Failure? ==> r.error == PyRepr(s) + " is not a valid DocumentCategory"
  {
    if s == "loan_applications" then Success(LoanApplication)
    else if s == "account_inquiries" then Success(AccountInquiry)
    else if s == "complaints" then Success(Complaint)
    else if s == "kyc_updates" then Success(KycUpdate)
    else if s == "general_correspondence" then Success(General)
    else Failure(PyRepr(s) + " is not a valid DocumentCategory")
  }

  /** `UrgencyLevel(s)`: the member whose value is `s`, or `ValueError`. */
  function ParseUrgency(s: string): (r: Result<Urgency>)
    ensures r.Success? <==> s in UrgencyValues
    ensures r.Success? ==> UrgencyValue(r.value) == s
    ensures r.Failure? ==> r.error == PyRepr(s) + " is not a valid UrgencyLevel"
  {
    if s == "high" then Success(High)
    else if s == "medium" then Success(Medium)
    else if s == "low" then Success(Low)
    else Failure(PyRepr(s) + " is not a valid UrgencyLevel")
  }

  /** The category values are exactly the five strings, one per member, pairwise distinct. */
  lemma {:induction false} CategoryValuesExact()
    ensures forall c: Category :: CategoryValue(c) in CategoryValues
    ensures forall c1: Category, c2: Category :: CategoryValue(c1) == CategoryValue(c2) ==> c1 == c2
    ensures |CategoryValues| == 5
  {
    assert CategoryValues == {"loan_applications", "account_inquiries", "complaints"}
                             + {"kyc_updates", "general_correspondence"};
  }

  /** The urgency values are exactly "high", "medium" and "low", pairwise distinct. */
  lemma {:induction false} UrgencyValuesExact()
    ensures forall u: Urgency :: UrgencyValue(u) in UrgencyValues
    ensures forall u1: Urgency, u2: Urgency :: UrgencyValue(u1) == UrgencyValue(u2) ==> u1 == u2
    ensures |UrgencyValues| == 3
  {
  }

  /** Constructing a category from its own value gives the member back. */
  lemma {:induction false} CategoryRoundTrip(c: Category)
    ensures ParseCategory(CategoryValue(c)) == Success(c)
  {
    match c
    case LoanApplication =>
    case AccountInquiry => assert CategoryValue(c) != "loan_applications";
    case Complaint => assert CategoryValue(c)[0] == 'c';
    case KycUpdate => assert CategoryValue(c)[0] == 'k';
    case General => assert CategoryValue(c)[0] == 'g';
  }

  /** The message quotes the rejected text with `repr`, so a control character shows as a
      hex escape: the text U+0004 followed by "29" is rejected with a message in which
      "429" occurs. */
  lemma {:induction false} EscapedCategoryMessage()
    ensures ParseCategory([4 as char, '2', '9']).Failure?
    ensures Contains(ParseCategory([4 as char, '2', '9']).error, "429")
  {
    var s := [4 as char, '2', '9'];
    PyReprHexEscape();
    assert s !in CategoryValues;
    var e := ParseCategory(s).error;
    assert e == PyRepr(s) + " is not a valid DocumentCategory";
    assert e[4..7] == PyRepr(s)[4..7];
    assert OccursAt(e, "429", 4);
  }

  /** Constructing an urgency from its own value gives the member back. */
  lemma {:induction false} UrgencyRoundTrip(u: Urgency)
    ensures ParseUrgency(UrgencyValue(u)) == Success(u)
  {
  }

  /** A JSON value as `json.loads` produces it; `extracted_info` is a dict of these. A
      number, integer or float, is held as a real. */
  datatype JsonValue =
    | JNull
    | JBool(b: bool)
    | JNumber(n: real)
    | JString(s: string)
    | JArray(items: seq<JsonValue>)
    | JObject(fields: map<string, JsonValue>)

  /** Python truthiness of a JSON value: `None`, `False`, `0`, `0.0`, `""`, `[]` and `{}`
      are false. */
  predicate Truthy(v: JsonValue)
  {
    match v
    case JNull => false
    case JBool(b) => b
    case JNumber(n) => n != 0.0
    case JString(s) => s != ""
    case JArray(items) => items != []
    case JObject(fields) => fields != map[]
  }

  /** `DocumentMetadata`: the customer data the classifier extracts. */
  datatype DocumentMetadata = DocumentMetadata(
    customerId: Option<string>,
    accountNumber: Option<string>,
    email: Option<string>,
    phone: Option<string>,
    subject: Option<string>,
    language: string)

  /** `DocumentMetadata()` with every field left at its default. */
  function DefaultMetadata(): (m: DocumentMetadata)
    ensures m.customerId.None? && m.accountNumber.None? && m.email.None?
    ensures m.phone.None? && m.subject.None?
    ensures m.language == "de"
  {
    DocumentMetadata(None, None, None, None, None, "de")
  }

  /** `ProcessedDocument`. The confidence score and the embedding are floats in the source;
      they are carried as reals and never computed with. `processedAt` is a timestamp. */
  datatype ProcessedDocument = ProcessedDocument(
    id: string,
    rawText: string,
    category: Category,
    urgencyLevel: Urgency,
    metadata: DocumentMetadata,
    extractedInfo: map<string, JsonValue>,
    confidenceScore: real,
    processedAt: int,
    embedding: Option<seq<real>>,
    assignedDepartment: string,
    requiresImmediateAttention: bool)

  /** `ProcessedDocument(...)` given only the required fields: the id and the timestamp
      come from the `uuid4` and `datetime.now` factories (here parameters), the embedding
      defaults to `None` and the attention flag to `False`. */
  function NewProcessedDocument(
    freshId: string, now: int, rawText: string, category: Category, urgency: Urgency,
    metadata: DocumentMetadata, extractedInfo: map<string, JsonValue>, confidence: real,
    assignedDepartment: string): (d: ProcessedDocument)
    ensures d.embedding.None? && !d.requiresImmediateAttention
    ensures d.id == freshId && d.processedAt == now
    ensures d.rawText == rawText && d.category == category && d.urgencyLevel == urgency
    ensures d.metadata == metadata && d.extractedInfo == extractedInfo
    ensures d.confidenceScore == confidence && d.assignedDepartment == assignedDepartment
  {
    ProcessedDocument(freshId, rawText, category, urgency, metadata, extractedInfo, confidence,
                      now, None, assignedDepartment, false)
  }
}
