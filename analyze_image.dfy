/** The `POST /api/analyze-image` handler: validation, the call to the vision model
    (an abstract outcome here), the decode stage, the normalization map, and either
    the success envelope or a classified error reply. */
module AnalyzeImage {
  import opened JsValues
  import opened NumberParsing
  import opened ErrorMapping
  import opened Decoding
  import opened Normalization
  import opened TextCleaning

  const DeploymentVersion := "2025-07-24-19:30:00-DEBUG"
  const HiddenResponseText := "[Hidden in production]"

  const ImageRequiredText := "Image data is required"
  const PromptRequiredText := "Prompt is required"
  const ApiKeyMissingText := "OpenAI API key not configured. Please add OPENAI_API_KEY to your environment variables."
  const ClientMissingText := "OpenAI client not initialized properly."

  /** The fixed parameters of the vision request. */
  const VisionModel := "gpt-4o"
  const ImageDetail := "high"
  const MaxTokens: nat := 1000
  const Temperature: real := 0.1

  /** The three fields the handler reads from the JSON request body. */
  datatype Request = Request(image: JsValue, prompt: JsValue, fileName: Option<string>)

  /** The process environment as the handler sees it: NODE_ENV, whether
      AWS_LAMBDA_FUNCTION_NAME is set, whether OPENAI_API_KEY is set to a non-empty
      value, and whether the module-level client was built at startup. */
  datatype Env = Env(nodeEnv: Option<string>, isLambda: bool, hasApiKey: bool, clientReady: bool) {
    predicate IsProduction() { nodeEnv == Some("production") }

    /** Verbose logging: neither production nor Lambda. */
    predicate DebugLogging() { !IsProduction() && !isLambda }

    /** Whether the generic error reply hides the error's own message. */
    predicate Redact() { IsProduction() || isLambda }

    /** `isLambda ? 'AWS Lambda' : (process.env.NODE_ENV || 'development')` */
    function EnvironmentName(): (s: string)
      ensures s != ""
      ensures isLambda ==> s == "AWS Lambda"
      ensures !isLambda && nodeEnv.Some? && nodeEnv.value != "" ==> s == nodeEnv.value
    {
      if isLambda then "AWS Lambda"
      else if nodeEnv.Some? && nodeEnv.value != "" then nodeEnv.value
      else "development"
    }
  }

  /** The request sent to the vision model. */
  datatype VisionCall = VisionCall(
    model: string, prompt: JsValue, imageUrl: JsValue, detail: string, maxTokens: nat, temperature: real)

  /** What the model call gives back: the first choice's message content (None when
      it is null), or the error it was rejected with. */
  datatype ModelOutcome = Replied(content: Option<string>) | Failed(error: JsError)

  /** Response bodies. `fileName` None is a field JSON leaves out. */
  datatype Body =
    | Success(items: seq<Item>, fileName: Option<string>, originalResponse: string,
              extractedCount: nat, environment: string, deploymentVersion: string)
    | Failure(error: string, message: Option<string>)

  datatype Response = Response(status: nat, body: Body)

  function ReplyOf(e: ErrorReply): Response {
    Response(e.status, Failure(e.error, e.message))
  }

  /** The early-return checks, in the order the handler makes them; None lets the
      request through to the model. */
  function Validate(req: Request, env: Env): (r: Option<ErrorReply>)
    ensures r.None? <==> Truthy(req.image) && Truthy(req.prompt) && env.hasApiKey && env.clientReady
    ensures !Truthy(req.image) ==> r == Some(ErrorReply(400, ImageRequiredText, None))
    ensures Truthy(req.image) && !Truthy(req.prompt) ==> r == Some(ErrorReply(400, PromptRequiredText, None))
    ensures Truthy(req.image) && Truthy(req.prompt) && !env.hasApiKey
            ==> r == Some(ErrorReply(500, ApiKeyMissingText, None))
    ensures Truthy(req.image) && Truthy(req.prompt) && env.hasApiKey && !env.clientReady
            ==> r == Some(ErrorReply(500, ClientMissingText, None))
  {
    if !Truthy(req.image) then Some(ErrorReply(400, ImageRequiredText, None))
    else if !Truthy(req.prompt) then Some(ErrorReply(400, PromptRequiredText, None))
    else if !env.hasApiKey then Some(ErrorReply(500, ApiKeyMissingText, None))
    else if !env.clientReady then Some(ErrorReply(500, ClientMissingText, None))
    else None
  }

  /** With debug logging on, the prompt is logged through `prompt.substring`, which a
      prompt that is not a string does not have: a TypeError before the model call. */
  predicate PromptLogFails(req: Request, env: Env) {
    env.DebugLogging() && !req.prompt.Str?
  }

  const PromptLogError := JsError(None, Some("prompt.substring is not a function"))

  /** The vision request made for a request that passed validation. */
  function VisionRequest(req: Request): (c: VisionCall)
    ensures c.prompt == req.prompt && c.imageUrl == req.image
    ensures c.model == VisionModel && c.detail == ImageDetail
    ensures c.maxTokens == MaxTokens && c.temperature == Temperature
  {
    VisionCall(VisionModel, req.prompt, req.image, ImageDetail, MaxTokens, Temperature)
  }

  /** The whole handler. `call` is the request made to the vision model, if any;
      `outcome` is what that call gives back, and `jsonParse` stands for JSON.parse. */
  method HandleAnalyzeImage(req: Request, env: Env, outcome: ModelOutcome, jsonParse: string -> Option<JsValue>)
    returns (resp: Response, call: Option<VisionCall>)
    ensures call.Some? <==> Validate(req, env).None? && !PromptLogFails(req, env)
    ensures call.Some? ==> call.value == VisionRequest(req)
    ensures Validate(req, env).Some? ==> resp == ReplyOf(Validate(req, env).value)
    ensures Validate(req, env).None? && PromptLogFails(req, env)
            ==> resp == ReplyOf(Classify(PromptLogError, env.Redact()))
    ensures call.Some? && outcome.Failed? ==> resp == ReplyOf(Classify(outcome.error, env.Redact()))
    ensures call.Some? && outcome == Replied(None)
            ==> resp == ReplyOf(Classify(ReadPropertyError(Null, "slice"), env.Redact()))
    ensures call.Some? && outcome.Replied? && outcome.content.Some? ==>
              var raw := outcome.content.value;
              var normalized := NormalizeAll(Decode(raw, req.fileName, jsonParse).Candidates(), req.fileName);
              && (normalized.Ok? ==>
                    resp == Response(200, Success(normalized.value, req.fileName,
                                                  if env.DebugLogging() then raw else HiddenResponseText,
                                                  |normalized.value|, env.EnvironmentName(), DeploymentVersion)))
              && (normalized.Throw? ==> resp == ReplyOf(Classify(normalized.error, env.Redact())))
    ensures resp.status == 200 <==> resp.body.Success?
    ensures resp.body.Success? ==> resp.body.extractedCount == |resp.body.items|
    ensures resp.body.Success? ==> forall i :: 0 <= i < |resp.body.items| ==> WellFormed(resp.body.items[i])
  {
    call := None;
    var invalid := Validate(req, env);
    if invalid.Some? {
      resp := ReplyOf(invalid.value);
      return;
    }
    if PromptLogFails(req, env) {
      var reply := Classify(PromptLogError, env.Redact());
      assert reply.status != 200;
      resp := ReplyOf(reply);
      return;
    }
    call := Some(VisionRequest(req));
    if outcome.Failed? {
      var reply := Classify(outcome.error, env.Redact());
      assert reply.status != 200;
      resp := ReplyOf(reply);
      return;
    }
    if outcome.content.None? {
      // `aiResponse.replace` throws inside the parse block, so the fallback is built,
      // and its `aiResponse.slice` throws again, out to the error mapping.
      var reply := Classify(ReadPropertyError(Null, "slice"), env.Redact());
      assert reply.status != 200;
      resp := ReplyOf(reply);
      return;
    }
    resp := RespondToReply(outcome.content.value, req.fileName, env, jsonParse);
  }

  /** Everything after a reply with content: decode it, normalize the candidates,
      and answer with the success envelope, or with the classified error the
      normalization threw. */
  method RespondToReply(aiResponse: string, fileName: Option<string>, env: Env, jsonParse: string -> Option<JsValue>)
    returns (resp: Response)
    ensures var normalized := NormalizeAll(Decode(aiResponse, fileName, jsonParse).Candidates(), fileName);
      && (normalized.Ok? ==>
            resp == Response(200, Success(normalized.value, fileName,
                                          if env.DebugLogging() then aiResponse else HiddenResponseText,
                                          |normalized.value|, env.EnvironmentName(), DeploymentVersion)))
      && (normalized.Throw? ==> resp == ReplyOf(Classify(normalized.error, env.Redact())))
    ensures resp.status == 200 <==> resp.body.Success?
    ensures resp.body.Success? ==> resp.body.extractedCount == |resp.body.items|
    ensures resp.body.Success? ==> forall i :: 0 <= i < |resp.body.items| ==> WellFormed(resp.body.items[i])
  {
    var extractedItems := ExtractItems(aiResponse, fileName, jsonParse);
    var validatedItems := NormalizeAll(extractedItems, fileName);
    resp := Respond(validatedItems, aiResponse, fileName, env);
  }

  /** The success envelope around the normalized items, or the classified error the
      normalization threw. */
  method Respond(validatedItems: Result<seq<Item>>, aiResponse: string, fileName: Option<string>, env: Env)
    returns (resp: Response)
    ensures validatedItems.Ok? ==>
              resp == Response(200, Success(validatedItems.value, fileName,
                                            if env.DebugLogging() then aiResponse else HiddenResponseText,
                                            |validatedItems.value|, env.EnvironmentName(), DeploymentVersion))
    ensures validatedItems.Throw? ==> resp == ReplyOf(Classify(validatedItems.error, env.Redact()))
    ensures resp.status == 200 <==> resp.body.Success?
  {
    if validatedItems.Throw? {
      var reply := Classify(validatedItems.error, env.Redact());
      assert reply.status != 200;
      resp := ReplyOf(reply);
      return;
    }
    var items := validatedItems.value;
    resp := Response(200, Success(items, fileName,
                                  if env.DebugLogging() then aiResponse else HiddenResponseText,
                                  |items|, env.EnvironmentName(), DeploymentVersion));
  }

  /** The parse block: the cleaned reply is parsed, a parsed value that is not an array
      is wrapped in one, and a reply that does not parse is replaced by the fallback
      candidate. The candidate list is built in place, step by step, as the handler
      does. */
  method ExtractItems(aiResponse: string, fileName: Option<string>, jsonParse: string -> Option<JsValue>)
    returns (items: seq<JsValue>)
    ensures items == Decode(aiResponse, fileName, jsonParse).Candidates()
    ensures jsonParse(CleanResponse(aiResponse)).None? ==> items == [FallbackItem(aiResponse, fileName)]
  {
    var extractedItems := Array([]);
    var cleanResponse := CleanResponse(aiResponse);
    var parsed := jsonParse(cleanResponse);
    DecodeOfParsed(aiResponse, fileName, jsonParse);
    if parsed.Some? {
      extractedItems := parsed.value;
      if !extractedItems.Array? {
        extractedItems := Array([extractedItems]);
      }
    } else {
      extractedItems := Array([FallbackItem(aiResponse, fileName)]);
    }
    items := extractedItems.elems;
  }

  /** The fallback candidate always normalizes without error to fixed fields: the brand
      "AI Analysis" in both brand fields, both costs 25.99, and as description the
      start of the raw reply, or the item description when the reply is empty. */
  lemma FallbackNormalizes(raw: string, fileName: Option<string>)
    ensures var visible := Str("Items visible in " + TemplateString(fileName));
      NormalizeAll([FallbackItem(raw, fileName)], fileName)
      == Ok([Item(Str(FallbackBrand), Str(""), visible, Finite(DefaultCost), Finite(DefaultCost),
                  Str(FallbackBrand), if raw == [] then visible else Str(SliceTo(raw, FallbackDescriptionLength)))])
  {
    FallbackItemNormalizes(raw, fileName);
    NormalizeSingle(FallbackItem(raw, fileName), fileName);
  }

  lemma FallbackItemNormalizes(raw: string, fileName: Option<string>)
    ensures var visible := Str("Items visible in " + TemplateString(fileName));
      NormalizeItem(FallbackItem(raw, fileName), 0, fileName)
      == Ok(Item(Str(FallbackBrand), Str(""), visible, Finite(DefaultCost), Finite(DefaultCost),
                 Str(FallbackBrand), if raw == [] then visible else Str(SliceTo(raw, FallbackDescriptionLength))))
  {
    FallbackItemFields(raw, fileName);
    assert SliceTo(raw, FallbackDescriptionLength) == [] <==> raw == [];
    ParseFloatDefaultCost();
    NormalizeFallbackShape(FallbackItem(raw, fileName), fileName, FallbackBrand, "Items visible in " + TemplateString(fileName),
                           SliceTo(raw, FallbackDescriptionLength), FallbackCostText, DefaultCost);
  }

  /** A candidate shaped like the fallback: a brand, no model, a description and
      some text, and the same cost text in both cost fields. */
  lemma NormalizeFallbackShape(v: JsValue, fileName: Option<string>, brand: string, visible: string,
                               text: string, cost: string, price: real)
    requires v.Object? && brand != "" && visible != "" && price != 0.0
    requires Prop(v, "brandOrManufacturer") == Str(brand) && Prop(v, "brand") == Str("")
    requires Prop(v, "modelNumber") == Str("") && Prop(v, "model") == Undefined
    requires Prop(v, "itemDescription") == Str(visible) && Prop(v, "description") == Str(text)
    requires Prop(v, "costToReplace") == Str(cost) && Prop(v, "totalCost") == Str(cost)
    requires ParseFloatString(cost) == Finite(price)
    ensures NormalizeItem(v, 0, fileName)
            == Ok(Item(Str(brand), Str(""), Str(visible), Finite(price), Finite(price),
                       Str(brand), if text == [] then Str(visible) else Str(text)))
  {
  }

  /** A single object with a brand and a cost written as text, the common case: it is
      promoted to a one-item list and normalized field by field. */
  lemma SingleObjectScenario(raw: string, fileName: Option<string>, jsonParse: string -> Option<JsValue>)
    requires jsonParse(CleanResponse(raw)) == Some(AcmeObject())
    ensures NormalizeAll(Decode(raw, fileName, jsonParse).Candidates(), fileName)
            == Ok([Item(Str("Acme"), Str(""), Str(ItemLabel(0, fileName)), Finite(12.5), Finite(12.5),
                        Str("Acme"), Str(""))])
  {
    DecodePromotesSingleValue(raw, fileName, jsonParse);
    AcmeObjectNormalizes(fileName);
    NormalizeSingle(AcmeObject(), fileName);
  }

  /** The same object as a one-element list inside a json code block: whatever the
      list's text, as long as it holds no backtick and has no surrounding white space,
      the fences are removed, the list is kept, and its one element gives the same
      item. */
  lemma FencedListScenario(body: string, fileName: Option<string>, jsonParse: string -> Option<JsValue>)
    requires '`' !in body && body == Trim(body)
    requires jsonParse(body) == Some(Array([AcmeObject()]))
    ensures NormalizeAll(Decode("```json\n" + body + "\n```", fileName, jsonParse).Candidates(), fileName)
            == Ok([Item(Str("Acme"), Str(""), Str(ItemLabel(0, fileName)), Finite(12.5), Finite(12.5),
                        Str("Acme"), Str(""))])
  {
    CleanResponseUnwrapsCodeBlock(body);
    DecodeKeepsArray("```json\n" + body + "\n```", fileName, jsonParse, [AcmeObject()]);
    AcmeObjectNormalizes(fileName);
    NormalizeSingle(AcmeObject(), fileName);
  }

  function AcmeObject(): JsValue {
    Object(map["brandOrManufacturer" := Str("Acme"), "costToReplace" := Str("12.50")])
  }

  lemma AcmeObjectNormalizes(fileName: Option<string>)
    ensures NormalizeItem(AcmeObject(), 0, fileName)
            == Ok(Item(Str("Acme"), Str(""), Str(ItemLabel(0, fileName)), Finite(12.5), Finite(12.5),
                       Str("Acme"), Str("")))
  {
    AcmeObjectFields();
    ParseFloatOfTwelveFifty();
    NormalizeBrandAndCost(AcmeObject(), fileName, "Acme", "12.50", 12.5);
  }

  /** A candidate that gives only a brand and a cost text: the brand fills both brand
      fields, the cost both cost fields, and the description is synthesized. */
  lemma NormalizeBrandAndCost(v: JsValue, fileName: Option<string>, brand: string, cost: string, price: real)
    requires v.Object? && brand != "" && price != 0.0
    requires Prop(v, "brandOrManufacturer") == Str(brand) && Prop(v, "costToReplace") == Str(cost)
    requires Prop(v, "brand") == Undefined && Prop(v, "totalCost") == Undefined
    requires Prop(v, "modelNumber") == Undefined && Prop(v, "model") == Undefined
    requires Prop(v, "itemDescription") == Undefined && Prop(v, "description") == Undefined
    requires ParseFloatString(cost) == Finite(price)
    ensures NormalizeItem(v, 0, fileName)
            == Ok(Item(Str(brand), Str(""), Str(ItemLabel(0, fileName)), Finite(price), Finite(price),
                       Str(brand), Str("")))
  {
  }

  lemma AcmeObjectFields()
    ensures var v := AcmeObject();
      && Prop(v, "brandOrManufacturer") == Str("Acme") && Prop(v, "costToReplace") == Str("12.50")
      && Prop(v, "brand") == Undefined && Prop(v, "totalCost") == Undefined
      && Prop(v, "modelNumber") == Undefined && Prop(v, "model") == Undefined
      && Prop(v, "itemDescription") == Undefined && Prop(v, "description") == Undefined
  {
  }
}
