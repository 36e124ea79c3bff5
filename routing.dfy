/** Routing of a processed document: the routing record, the high-priority alert for a
    document that needs immediate attention, the alert's reason text and the department
    notification. E-mail delivery and the audit log are outside the model. */
module Routing {
  import opened Common
  import opened Text
  import opened Document

  const AlertType: string := "HIGH_PRIORITY"

  /** The alert reasons, in the order they are checked. */
  const HighUrgencyReason: string := "High urgency classification"
  const ComplaintReason: string := "Customer complaint"
  const FraudReason: string := "Potential fraud risk"

  /** The reason given when no condition applies. */
  const DefaultReason: string := "Manual review required"

  const ReasonSeparator: string := " | "

  /** The alert dictionary of `_create_priority_alert`; `createdAt` is the document's
      processing timestamp. */
  datatype Alert = Alert(
    alertType: string,
    documentId: string,
    category: Category,
    customerId: Option<string>,
    reason: string,
    createdAt: int)

  /** The routing dictionary of `route_document`. */
  datatype RoutingResult = RoutingResult(
    documentId: string,
    department: string,
    urgency: Urgency,
    alertsCreated: seq<Alert>,
    notificationSent: bool)

  /** `"complaint" in document.category.lower()`. */
  predicate IsComplaint(doc: ProcessedDocument)
  {
    Contains(Lower(CategoryValue(doc.category)), "complaint")
  }

  /** `document.extracted_info.get("fraud_risk")` is truthy. */
  predicate FraudFlagged(doc: ProcessedDocument)
  {
    "fraud_risk" in doc.extractedInfo && Truthy(doc.extractedInfo["fraud_risk"])
  }

  /** The reasons that apply, in the fixed order high urgency, complaint, fraud risk. */
  function TriggeredReasons(doc: ProcessedDocument): (reasons: seq<string>)
    ensures |reasons| <= 3
    ensures HighUrgencyReason in reasons <==> doc.urgencyLevel == High
    ensures ComplaintReason in reasons <==> IsComplaint(doc)
    ensures FraudReason in reasons <==> FraudFlagged(doc)
  {
    (if doc.urgencyLevel == High then [HighUrgencyReason] else [])
    + (if IsComplaint(doc) then [ComplaintReason] else [])
    + (if FraudFlagged(doc) then [FraudReason] else [])
  }

  /** The reason text: the triggered reasons joined by " | ", or the default. This is the
      specification of `DetermineAlertReason` below, which appends to a list step by step
      as the service does; the lemmas about the reason are stated on this function, since
      lemmas cannot call a method. */
  function AlertReason(doc: ProcessedDocument): (reason: string)
    ensures reason != ""
  {
    var reasons := TriggeredReasons(doc);
    if reasons != [] then
      assert reasons[0] != "";
      JoinStartsWithFirst(reasons, ReasonSeparator);
      Join(reasons, ReasonSeparator)
    else DefaultReason
  }

  /** `_determine_alert_reason(document)`: collects the reasons that apply, then joins
      them, or gives the default when none does. */
  method DetermineAlertReason(doc: ProcessedDocument) returns (reason: string)
    ensures reason == AlertReason(doc)
  {
    var reasons: seq<string> := [];
    if doc.urgencyLevel == High {
      reasons := reasons + [HighUrgencyReason];
    }
    if Contains(Lower(CategoryValue(doc.category)), "complaint") {
      reasons := reasons + [ComplaintReason];
    }
    if "fraud_risk" in doc.extractedInfo && Truthy(doc.extractedInfo["fraud_risk"]) {
      reasons := reasons + [FraudReason];
    }
    assert reasons == TriggeredReasons(doc);
    if reasons != [] {
      reason := Join(reasons, ReasonSeparator);
    } else {
      reason := DefaultReason;
    }
  }

  /** `_create_priority_alert(document)`. */
  function CreatePriorityAlert(doc: ProcessedDocument): (alert: Alert)
    ensures alert.alertType == AlertType
    ensures alert.documentId == doc.id && alert.category == doc.category
    ensures alert.customerId == doc.metadata.customerId
    ensures alert.reason == AlertReason(doc) && alert.reason != ""
    ensures alert.createdAt == doc.processedAt
  {
    Alert(AlertType, doc.id, doc.category, doc.metadata.customerId, AlertReason(doc), doc.processedAt)
  }

  /** `_notify_department(document)`: builds the message and reports success; no step
      of the model can raise, so the `except` branch returning `False` is never taken. */
  function NotifyDepartment(doc: ProcessedDocument): (sent: bool)
    ensures sent
  {
    true
  }

  /** `route_document(document)`: copies the document's id, department and urgency,
      creates exactly one alert when the document needs immediate attention and none
      otherwise, and records the notification outcome. */
  method RouteDocument(doc: ProcessedDocument) returns (result: RoutingResult)
    ensures result.documentId == doc.id
    ensures result.department == doc.assignedDepartment
    ensures result.urgency == doc.urgencyLevel
    ensures doc.requiresImmediateAttention ==> result.alertsCreated == [CreatePriorityAlert(doc)]
    ensures !doc.requiresImmediateAttention ==> result.alertsCreated == []
    ensures result.notificationSent
  {
    var alerts: seq<Alert> := [];
    if doc.requiresImmediateAttention {
      var alert := CreatePriorityAlert(doc);
      alerts := alerts + [alert];
    }
    var sent := NotifyDepartment(doc);
    result := RoutingResult(doc.id, doc.assignedDepartment, doc.urgencyLevel, alerts, sent);
  }

  // ---------------------------------------------------------------------------------
  // Properties of the alert reason
  // ---------------------------------------------------------------------------------

  /** Of the five categories only "complaints" contains "complaint" once lower-cased:
      none of the other values has an 'm' or an 'M'. */
  lemma {:induction false} ComplaintOnlyForComplaints(c: Category)
    ensures Contains(Lower(CategoryValue(c)), "complaint") <==> c == Complaint
  {
    var v := CategoryValue(c);
    if c == Complaint {
      assert Lower(v) == v by {
        LowerUnchanged(v);
      }
      ContainsPrefix(v, "complaint");
    } else if Contains(Lower(v), "complaint") {
      ContainsHasChars(Lower(v), "complaint", 2);
      LowerLetterOrigin(v, 'm');
      OnlyComplaintsHaveM(c);
      assert false;
    }
  }

  /** No category value but "complaints" has an 'm' or an 'M'. */
  lemma {:induction false} OnlyComplaintsHaveM(c: Category)
    requires c != Complaint
    ensures 'm' !in CategoryValue(c) && 'M' !in CategoryValue(c)
  {
    match c {
      case LoanApplication =>
      case AccountInquiry =>
      case KycUpdate =>
      case General =>
    }
  }

  /** The default reason is given exactly when no condition applies. */
  lemma {:induction false} DefaultReasonIffNothingTriggered(doc: ProcessedDocument)
    ensures AlertReason(doc) == DefaultReason <==> TriggeredReasons(doc) == []
  {
    var reasons := TriggeredReasons(doc);
    if reasons != [] {
      JoinStartsWithFirst(reasons, ReasonSeparator);
      assert reasons[0][0] in {'H', 'C', 'P'};
      assert AlertReason(doc)[0] != DefaultReason[0];
    }
  }

  /** Each reason text starts with a capital letter found in no other reason text, in
      the separator or in the default reason. */
  lemma {:induction false} HighUrgencyInitial()
    ensures HighUrgencyReason[0] == 'H'
    ensures 'H' !in ComplaintReason && 'H' !in FraudReason
    ensures 'H' !in ReasonSeparator && 'H' !in DefaultReason
  {
  }

  lemma {:induction false} ComplaintInitial()
    ensures ComplaintReason[0] == 'C'
    ensures 'C' !in HighUrgencyReason && 'C' !in FraudReason
    ensures 'C' !in ReasonSeparator && 'C' !in DefaultReason
  {
  }

  lemma {:induction false} FraudInitial()
    ensures FraudReason[0] == 'P'
    ensures 'P' !in HighUrgencyReason && 'P' !in ComplaintReason
    ensures 'P' !in ReasonSeparator && 'P' !in DefaultReason
  {
  }

  /** The reason names a condition exactly when that condition applies. */
  lemma {:induction false} ReasonNamesExactlyTriggered(doc: ProcessedDocument)
    ensures Contains(AlertReason(doc), HighUrgencyReason) <==> doc.urgencyLevel == High
    ensures Contains(AlertReason(doc), ComplaintReason) <==> IsComplaint(doc)
    ensures Contains(AlertReason(doc), FraudReason) <==> FraudFlagged(doc)
  {
    var reasons := TriggeredReasons(doc);
    HighUrgencyInitial();
    ComplaintInitial();
    FraudInitial();
    assert forall p | p in reasons :: p == HighUrgencyReason || p == ComplaintReason || p == FraudReason;
    if reasons == [] {
      NotMentioned(DefaultReason, HighUrgencyReason);
      NotMentioned(DefaultReason, ComplaintReason);
      NotMentioned(DefaultReason, FraudReason);
    } else {
      JoinMentions(reasons, ReasonSeparator, HighUrgencyReason);
      JoinMentions(reasons, ReasonSeparator, ComplaintReason);
      JoinMentions(reasons, ReasonSeparator, FraudReason);
    }
  }

  /** A text whose first character is missing from `s` does not occur in `s`. */
  lemma {:induction false} NotMentioned(s: string, text: string)
    requires text != [] && text[0] !in s
    ensures !Contains(s, text)
  {
    if Contains(s, text) {
      ContainsHasChars(s, text, 0);
    }
  }

  /** For a document the classifier produced, attention is required exactly at high
      urgency, so an alert always opens with the high-urgency reason and the default
      reason never appears in one. */
  lemma {:induction false} ClassifiedAlertsAreHighUrgency(doc: ProcessedDocument)
    requires doc.requiresImmediateAttention <==> doc.urgencyLevel == High
    requires doc.requiresImmediateAttention
    ensures HighUrgencyReason <= CreatePriorityAlert(doc).reason
    ensures CreatePriorityAlert(doc).reason != DefaultReason
  {
    var reasons := TriggeredReasons(doc);
    assert reasons[0] == HighUrgencyReason;
    JoinStartsWithFirst(reasons, ReasonSeparator);
    DefaultReasonIffNothingTriggered(doc);
  }
}
