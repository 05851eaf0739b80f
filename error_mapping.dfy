/** The handler's `catch (error)` block: the thrown value's `code`, then its `message`,
    chooses the HTTP status and the caller-facing text, first match wins. */
module ErrorMapping {
  import opened JsValues

  /** A failure response: status code, the `error` text and the optional `message`. */
  datatype ErrorReply = ErrorReply(status: nat, error: string, message: Option<string>)

  const QuotaExceededText := "OpenAI API quota exceeded. Please check your billing and add credits to your OpenAI account."
  const InvalidKeyText := "Invalid OpenAI API key. Please check your OPENAI_API_KEY in environment variables."
  const RateLimitText := "OpenAI API rate limit exceeded. Please wait and try again."
  const ModelUpdatedText := "AI Vision model has been updated. Please contact support if this error persists."
  const ModelUpdatedHint := "The vision model has been updated to gpt-4o"
  const AnalysisFailedText := "AI Vision analysis failed"
  const RedactedText := "Internal server error"

  /** `error.message && error.message.includes(p)` */
  predicate MessageIncludes(e: JsError, p: string) {
    e.message.Some? && e.message.value != "" && Includes(e.message.value, p)
  }

  predicate IsQuota(e: JsError) { e.code == Some("insufficient_quota") }
  predicate IsInvalidKey(e: JsError) { e.code == Some("invalid_api_key") }
  predicate IsRateLimit(e: JsError) { MessageIncludes(e, "rate limit") }
  predicate IsDeprecation(e: JsError) { MessageIncludes(e, "deprecated") }

  /** The status and texts for a thrown error. `redact` is `isProduction || isLambda`:
      the generic reply then hides the error's own message. */
  function Classify(e: JsError, redact: bool): (r: ErrorReply)
    ensures r.status == 402 <==> IsQuota(e)
    ensures r.status == 401 <==> !IsQuota(e) && IsInvalidKey(e)
    ensures r.status == 429 <==> !IsQuota(e) && !IsInvalidKey(e) && IsRateLimit(e)
    ensures r.status == 500 <==> !IsQuota(e) && !IsInvalidKey(e) && !IsRateLimit(e)
    ensures r.status == 500 && IsDeprecation(e) ==> r.error == ModelUpdatedText && r.message == Some(ModelUpdatedHint)
    ensures r.status == 500 && !IsDeprecation(e) ==> r.error == AnalysisFailedText
    ensures r.status == 500 && !IsDeprecation(e) ==> r.message == (if redact then Some(RedactedText) else e.message)
    ensures r.status != 500 ==> r.message == None
    ensures r.status == 401 || r.status == 402 || r.status == 429 || r.status == 500
  {
    if IsQuota(e) then ErrorReply(402, QuotaExceededText, None)
    else if IsInvalidKey(e) then ErrorReply(401, InvalidKeyText, None)
    else if IsRateLimit(e) then ErrorReply(429, RateLimitText, None)
    else if IsDeprecation(e) then ErrorReply(500, ModelUpdatedText, Some(ModelUpdatedHint))
    else ErrorReply(500, AnalysisFailedText, if redact then Some(RedactedText) else e.message)
  }

  /** With redaction on, no reply carries the error's own message: only fixed texts. */
  lemma RedactedRepliesUseFixedTexts(e: JsError)
    ensures var r := Classify(e, true);
      r.message == None || r.message == Some(RedactedText) || r.message == Some(ModelUpdatedHint)
    ensures var r := Classify(e, true);
      r.error in {QuotaExceededText, InvalidKeyText, RateLimitText, ModelUpdatedText, AnalysisFailedText}
  {
  }

  /** The message test is case-sensitive: a message that says "Rate limit" with a
      capital letter is not recognised as a rate limit and gets the generic 500. */
  lemma RateLimitTestIsCaseSensitive(redact: bool)
    ensures Classify(JsError(None, Some("Rate limit")), redact).status == 500
  {
    var m := "Rate limit";
    assert m[0] != "rate limit"[0];
    SameLengthMismatch(m, "rate limit");
    assert m[0] != "deprecated"[0];
    SameLengthMismatch(m, "deprecated");
  }

  /** Text as long as the pattern but differing in its first character does not
      include it. */
  lemma SameLengthMismatch(s: string, p: string)
    requires |s| == |p| > 0 && s[0] != p[0]
    ensures !Includes(s, p)
  {
    TooShort(s[1..], p);
  }

  lemma {:induction false} TooShort(s: string, p: string)
    requires |s| < |p|
    ensures !Includes(s, p)
    decreases |s|
  {
    if |s| > 0 {
      TooShort(s[1..], p);
    }
  }
}
