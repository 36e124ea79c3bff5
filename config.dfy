/** The constant tables of the application settings: where each document category is
    routed and which words mark a document as urgent. */
module Config {
  import Document

  /** `MISTRAL_MODEL`: the chat model the classifier calls (an environment variable may
      override it). */
  const MistralModel: string := "mistral-large-latest"

  /** `DEPARTMENT_EMAILS`: category value to department address. */
  const DepartmentEmails: map<string, string> := map[
    "loan_applications" := "loans@bank.de",
    "account_inquiries" := "accounts@bank.de",
    "complaints" := "complaints@bank.de",
    "kyc_updates" := "compliance@bank.de",
    "general_correspondence" := "info@bank.de"
  ]

  /** `HIGH_URGENCY_KEYWORDS`, in their configured order. */
  const HighUrgencyKeywords: seq<string> :=
    ["urgent", "dringend", "immediately", "sofort", "complaint", "beschwerde", "fraud", "betrug"]

  /** The routing table has exactly the five category values as keys. */
  lemma {:induction false} DepartmentKeysAreCategories()
    ensures DepartmentEmails.Keys == Document.CategoryValues
    ensures forall c: Document.Category :: Document.CategoryValue(c) in DepartmentEmails
  {
  }

  /** Every department address contains an '@' and a '.'. */
  lemma {:induction false} DepartmentAddressesWellFormed()
    ensures forall k | k in DepartmentEmails :: '@' in DepartmentEmails[k] && '.' in DepartmentEmails[k]
  {
  }

  /** General correspondence goes to the same address the department lookup falls back to. */
  lemma {:induction false} GeneralCorrespondenceAddress()
    ensures DepartmentEmails[Document.CategoryValue(Document.General)] == "info@bank.de"
  {
  }

  /** The urgency keyword list is non-empty and holds "urgent" and "dringend". */
  lemma {:induction false} UrgencyKeywordsConfigured()
    ensures |HighUrgencyKeywords| > 0
    ensures "urgent" in HighUrgencyKeywords && "dringend" in HighUrgencyKeywords
  {
  }
}
