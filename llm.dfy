/** The classification call: one logical request to the chat model, retried with
    exponential backoff while the error text says the API answered 429 (Too Many
    Requests, section 4 of RFC 6585), and turned into a processed document.

    The chat API is a function from the call number and the request to an outcome; a
    reply whose JSON cannot be read arrives as an `Raised` outcome with the parser's
    message. The sleeps are recorded as a list of waits in seconds. */
module Llm {
  import opened Common
  import opened Text
  import opened Document
  import Config

  /** `max_retries`: the number of attempts. */
  const MaxRetries: nat := 3

  /** The address `_get_department` falls back to. */
  const FallbackDepartment: string := "info@bank.de"

  /** The user prompt around the document text, with the source's line breaks and indentation. */
  const PromptHead: string :=
    "Analyze this banking document and classify it according to the instructions:\n\n        DOCUMENT TEXT:\n        "
  const PromptTail: string := "\n\n        Provide the structured JSON response."

  /** How many leading characters of the document the prompt embeds. */
  const PromptTextLimit: nat := 3000

  const FailurePrefix: string := "LLM classification failed: "

  /** `_create_classification_prompt(text)`: the fixed text around `text[:3000]`. */
  function ClassificationPrompt(text: string): (p: string)
    ensures |p| == |PromptHead| + |Take(text, PromptTextLimit)| + |PromptTail|
    ensures |p| <= |PromptHead| + PromptTextLimit + |PromptTail|
    ensures p[..|PromptHead|] == PromptHead && p[|p| - |PromptTail|..] == PromptTail
    ensures p[|PromptHead|..|p| - |PromptTail|] <= text
    ensures |text| <= PromptTextLimit ==> Contains(p, text)
  {
    var p := PromptHead + Take(text, PromptTextLimit) + PromptTail;
    assert p[|PromptHead|..|p| - |PromptTail|] == Take(text, PromptTextLimit);
    assert p[..|PromptHead|] == PromptHead && p[|p| - |PromptTail|..] == PromptTail;
    ContainsInMiddle(PromptHead, Take(text, PromptTextLimit), PromptTail);
    p
  }

  /** Only the first 3000 characters of the document reach the model. */
  lemma {:induction false} PromptSeesOnlyLeadingText(t1: string, t2: string)
    requires |t1| >= PromptTextLimit && |t2| >= PromptTextLimit
    requires t1[..PromptTextLimit] == t2[..PromptTextLimit]
    ensures ClassificationPrompt(t1) == ClassificationPrompt(t2)
  {
    assert Take(t1, PromptTextLimit) == t1[..PromptTextLimit];
    assert Take(t2, PromptTextLimit) == t2[..PromptTextLimit];
  }

  /** `_get_department(category)`: `DEPARTMENT_EMAILS.get(category, "info@bank.de")`. */
  function GetDepartment(category: string): (d: string)
    ensures category in Config.DepartmentEmails ==> d == Config.DepartmentEmails[category]
    ensures category !in Config.DepartmentEmails ==> d == FallbackDepartment
  {
    if category in Config.DepartmentEmails then Config.DepartmentEmails[category] else FallbackDepartment
  }

  /** Every category has its own department, and only general correspondence shares the
      fallback address. */
  lemma {:induction false} DepartmentPerCategory(c1: Category, c2: Category)
    ensures GetDepartment(CategoryValue(c1)) in Config.DepartmentEmails.Values
    ensures GetDepartment(CategoryValue(c1)) == FallbackDepartment <==> c1 == General
    ensures GetDepartment(CategoryValue(c1)) == GetDepartment(CategoryValue(c2)) <==> c1 == c2
  {
  }

  /** The request the loop sends: the configured model and the user prompt. The system
      prompt, temperature and response format are constants the model leaves out. */
  datatype ChatRequest = ChatRequest(model: string, userPrompt: string)

  /** The fields of a chat reply once `json.loads` has read it. */
  datatype Reply = Reply(
    category: string,
    urgency: string,
    metadata: DocumentMetadata,
    extractedInfo: map<string, JsonValue>,
    confidenceScore: real)

  /** What one `chat.complete` call gives: a readable reply, or an exception's text. */
  datatype ChatOutcome = Completed(reply: Reply) | Raised(message: string)

  /** The `ProcessedDocument(...)` construction inside the `try`: the category is
      converted first, then the urgency, each raising `ValueError` on an unknown value. */
  function BuildDocument(text: string, reply: Reply, freshId: string, now: int): (r: Result<ProcessedDocument>)
    ensures r.Success? <==> reply.category in CategoryValues && reply.urgency in UrgencyValues
    ensures reply.category !in CategoryValues ==> r == Failure(ParseCategory(reply.category).error)
    ensures reply.category in CategoryValues && reply.urgency !in UrgencyValues ==>
              r == Failure(ParseUrgency(reply.urgency).error)
    ensures r.Success? ==>
              && r.value.rawText == text
              && CategoryValue(r.value.category) == reply.category
              && UrgencyValue(r.value.urgencyLevel) == reply.urgency
              && r.value.metadata == reply.metadata
              && r.value.extractedInfo == reply.extractedInfo
              && r.value.assignedDepartment == Config.DepartmentEmails[reply.category]
              && (r.value.requiresImmediateAttention <==> r.value.urgencyLevel == High)
              && r.value.embedding.None?
              && r.value.id == freshId
  {
    match ParseCategory(reply.category)
    case Failure(e) => Failure(e)
    case Success(category) =>
      match ParseUrgency(reply.urgency)
      case Failure(e) => Failure(e)
      case Success(urgency) =>
        var doc := NewProcessedDocument(freshId, now, text, category, urgency, reply.metadata,
                                        reply.extractedInfo, reply.confidenceScore,
                                        GetDepartment(reply.category));
        Success(doc.(requiresImmediateAttention := reply.urgency == "high"))
  }

  /** The outcome of one attempt: the document, or the text of the exception caught. */
  function AttemptResult(text: string, outcome: ChatOutcome, freshId: string, now: int): Result<ProcessedDocument>
  {
    match outcome
    case Completed(reply) => BuildDocument(text, reply, freshId, now)
    case Raised(message) => Failure(message)
  }

  /** The `except` test: retry when the text contains "429" and this is not the last attempt. */
  predicate Retryable(message: string, attempt: nat)
  {
    Contains(message, "429") && attempt < MaxRetries - 1
  }

  /** `2 ** k`. */
  function Pow2(k: nat): (p: nat)
    ensures p >= 1
  {
    if k == 0 then 1 else 2 * Pow2(k - 1)
  }

  /** What one call of `classify_and_extract` does: its result, how many chat calls it
      made and the waits it slept. */
  datatype Run = Run(result: Result<ProcessedDocument>, calls: nat, waits: seq<nat>)

  /** The request every attempt sends: always the configured model. */
  function RequestFor(text: string): ChatRequest
  {
    ChatRequest(Config.MistralModel, ClassificationPrompt(text))
  }

  /** The outcome of attempt number `k`. */
  function OutcomeAt(text: string, respond: (nat, ChatRequest) -> ChatOutcome, freshId: string,
                     now: int, k: nat): Result<ProcessedDocument>
  {
    AttemptResult(text, respond(k, RequestFor(text)), freshId, now)
  }

  /** The attempts from number `attempt` on. */
  function RunFrom(text: string, respond: (nat, ChatRequest) -> ChatOutcome, freshId: string,
                   now: int, attempt: nat): (run: Run)
    requires attempt < MaxRetries
    ensures 1 <= run.calls <= MaxRetries - attempt
    ensures |run.waits| == run.calls - 1
    ensures forall k | 0 <= k < |run.waits| :: run.waits[k] == Pow2(attempt + k)
    decreases MaxRetries - attempt
  {
    var outcome := OutcomeAt(text, respond, freshId, now, attempt);
    if outcome.Success? then Run(outcome, 1, [])
    else if Retryable(outcome.error, attempt) then
      var rest := RunFrom(text, respond, freshId, now, attempt + 1);
      Run(rest.result, rest.calls + 1, [Pow2(attempt)] + rest.waits)
    else Run(Failure(FailurePrefix + outcome.error), 1, [])
  }

  /** The whole call, from the first attempt. */
  function Classify(text: string, respond: (nat, ChatRequest) -> ChatOutcome, freshId: string, now: int): Run
  {
    RunFrom(text, respond, freshId, now, 0)
  }

  /** `classify_and_extract(text)`: up to three attempts; a failure whose text holds "429"
      sleeps `2 ** attempt` seconds and tries again unless it was the last attempt; any
      other failure raises at once. The `for`-`else` raise after the loop is unreachable. */
  method ClassifyAndExtract(text: string, respond: (nat, ChatRequest) -> ChatOutcome, freshId: string, now: int)
    returns (result: Result<ProcessedDocument>, calls: nat, waits: seq<nat>)
    ensures Run(result, calls, waits) == Classify(text, respond, freshId, now)
    ensures 1 <= calls <= MaxRetries
  {
    var request := ChatRequest(Config.MistralModel, ClassificationPrompt(text));
    calls, waits := 0, [];
    for attempt := 0 to MaxRetries
      invariant attempt < MaxRetries
      invariant calls == attempt
      invariant var rest := RunFrom(text, respond, freshId, now, attempt);
                Classify(text, respond, freshId, now) == Run(rest.result, calls + rest.calls, waits + rest.waits)
    {
      var outcome := respond(attempt, request);
      calls := calls + 1;
      var built := AttemptResult(text, outcome, freshId, now);
      assert built == OutcomeAt(text, respond, freshId, now, attempt);
      if built.Success? {
        result := built;
        return;
      }
      if Contains(built.error, "429") && attempt < MaxRetries - 1 {
        var wait := Pow2(attempt);
        ghost var rest := RunFrom(text, respond, freshId, now, attempt + 1);
        assert RunFrom(text, respond, freshId, now, attempt) == Run(rest.result, rest.calls + 1, [wait] + rest.waits);
        ConcatAssoc(waits, [wait], rest.waits);
        waits := waits + [wait];
      } else {
        result := Failure(FailurePrefix + built.error);
        return;
      }
    }
    assert false;
    result := Failure("LLM classification failed after max retries");
  }

  // ---------------------------------------------------------------------------------
  // Properties of the retry loop
  // ---------------------------------------------------------------------------------

  /** At most three chat calls; the waits are 1 then 2 seconds, one before each retry,
      so the call sleeps at most 3 seconds in total. */
  lemma {:induction false} CallsAndBackoff(text: string, respond: (nat, ChatRequest) -> ChatOutcome, freshId: string, now: int)
    ensures var run := Classify(text, respond, freshId, now);
            1 <= run.calls <= MaxRetries && run.waits == [1, 2][..run.calls - 1]
  {
    var run := Classify(text, respond, freshId, now);
    assert Pow2(0) == 1 && Pow2(1) == 2;
    if run.calls == 3 {
      assert run.waits[0] == 1 && run.waits[1] == 2;
    }
  }

  /** Attempt `k + 1` happens exactly when attempt `k` happened and failed with a text
      containing "429" while attempts remained: no other failure is ever retried. */
  lemma {:induction false} RetriedOnlyOn429(text: string, respond: (nat, ChatRequest) -> ChatOutcome,
                                            freshId: string, now: int, attempt: nat, k: nat)
    requires attempt <= k < MaxRetries
    requires k - attempt < RunFrom(text, respond, freshId, now, attempt).calls
    ensures var o := OutcomeAt(text, respond, freshId, now, k);
            k - attempt + 1 < RunFrom(text, respond, freshId, now, attempt).calls <==>
              o.Failure? && Retryable(o.error, k)
    decreases k - attempt
  {
    if k > attempt {
      RetriedOnlyOn429(text, respond, freshId, now, attempt + 1, k);
    }
  }

  /** The result is decided by the last attempt made: its document, or its error text
      behind the "LLM classification failed: " prefix. */
  lemma {:induction false} LastAttemptDecides(text: string, respond: (nat, ChatRequest) -> ChatOutcome,
                                              freshId: string, now: int, attempt: nat)
    requires attempt < MaxRetries
    ensures var run := RunFrom(text, respond, freshId, now, attempt);
            var o := OutcomeAt(text, respond, freshId, now, attempt + run.calls - 1);
            run.result == if o.Success? then o else Failure(FailurePrefix + o.error)
    decreases MaxRetries - attempt
  {
    var o := OutcomeAt(text, respond, freshId, now, attempt);
    var run := RunFrom(text, respond, freshId, now, attempt);
    if o.Success? {
      assert run == Run(o, 1, []);
    } else if Retryable(o.error, attempt) {
      var rest := RunFrom(text, respond, freshId, now, attempt + 1);
      LastAttemptDecides(text, respond, freshId, now, attempt + 1);
      assert run.result == rest.result && attempt + run.calls - 1 == attempt + 1 + rest.calls - 1;
    } else {
      assert run == Run(Failure(FailurePrefix + o.error), 1, []);
    }
  }

  /** A first failure without "429" in its text (an unreadable reply, a bad category)
      ends the call after one attempt, with no wait. */
  lemma {:induction false} OtherErrorAbortsAtOnce(text: string, respond: (nat, ChatRequest) -> ChatOutcome, freshId: string, now: int)
    requires OutcomeAt(text, respond, freshId, now, 0).Failure?
    requires !Contains(OutcomeAt(text, respond, freshId, now, 0).error, "429")
    ensures Classify(text, respond, freshId, now) ==
              Run(Failure(FailurePrefix + OutcomeAt(text, respond, freshId, now, 0).error), 1, [])
  {
  }

  /** Three rate-limit errors in a row: three calls, waits of 1 and 2 seconds, and an
      error that starts with "LLM classification failed". */
  lemma {:induction false} ThreeRateLimitsFail(text: string, respond: (nat, ChatRequest) -> ChatOutcome, freshId: string, now: int)
    requires forall k | 0 <= k < MaxRetries :: respond(k, RequestFor(text)).Raised?
    requires forall k | 0 <= k < MaxRetries :: Contains(respond(k, RequestFor(text)).message, "429")
    ensures var run := Classify(text, respond, freshId, now);
            && run.calls == 3 && run.waits == [1, 2]
            && run.result.Failure? && FailurePrefix <= run.result.error
  {
    assert Pow2(0) == 1 && Pow2(1) == 2;
    var o0 := OutcomeAt(text, respond, freshId, now, 0);
    var o1 := OutcomeAt(text, respond, freshId, now, 1);
    var o2 := OutcomeAt(text, respond, freshId, now, 2);
    assert o0.Failure? && Retryable(o0.error, 0);
    assert o1.Failure? && Retryable(o1.error, 1);
    assert o2.Failure? && !Retryable(o2.error, 2);
  }

  /** A rate-limit error followed by a well-formed reply: a document after exactly two
      calls and one wait of 1 second. */
  lemma {:induction false} RateLimitThenSuccess(text: string, respond: (nat, ChatRequest) -> ChatOutcome, freshId: string, now: int)
    requires respond(0, RequestFor(text)).Raised? && Contains(respond(0, RequestFor(text)).message, "429")
    requires respond(1, RequestFor(text)).Completed?
    requires respond(1, RequestFor(text)).reply.category in CategoryValues
    requires respond(1, RequestFor(text)).reply.urgency in UrgencyValues
    ensures var run := Classify(text, respond, freshId, now);
            run.result.Success? && run.calls == 2 && run.waits == [1]
  {
    assert Pow2(0) == 1;
  }

  /** A returned document keeps the text, is flagged for immediate attention exactly when
      its urgency is high, and is assigned its category's department, never the lookup's
      fallback for an unknown category. */
  lemma {:induction false} ClassifiedDocument(text: string, respond: (nat, ChatRequest) -> ChatOutcome, freshId: string, now: int)
    requires Classify(text, respond, freshId, now).result.Success?
    ensures var doc := Classify(text, respond, freshId, now).result.value;
            && doc.rawText == text
            && (doc.requiresImmediateAttention <==> doc.urgencyLevel == High)
            && CategoryValue(doc.category) in Config.DepartmentEmails
            && doc.assignedDepartment == Config.DepartmentEmails[CategoryValue(doc.category)]
  {
    Config.DepartmentKeysAreCategories();
    var run := Classify(text, respond, freshId, now);
    LastAttemptDecides(text, respond, freshId, now, 0);
    var o := OutcomeAt(text, respond, freshId, now, run.calls - 1);
    assert run.result == o;
  }

  /** The rejected category's `repr` can itself contain "429": a reply whose category is
      the control character U+0004 followed by "29" fails with `'\x0429' is not a valid
      DocumentCategory` and is retried as if the service had been rate limited. */
  lemma {:induction false} EscapedCategoryLooksRateLimited(text: string, respond: (nat, ChatRequest) -> ChatOutcome,
                                                           freshId: string, now: int)
    requires respond(0, RequestFor(text)).Completed?
    requires respond(0, RequestFor(text)).reply.category == [4 as char, '2', '9']
    ensures var run := Classify(text, respond, freshId, now);
            run.calls >= 2 && run.waits[0] == 1
  {
    EscapedCategoryMessage();
    var o := OutcomeAt(text, respond, freshId, now, 0);
    assert o == Failure(ParseCategory([4 as char, '2', '9']).error);
    assert Retryable(o.error, 0);
    assert Pow2(0) == 1;
  }
}
