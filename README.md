# Image analysis endpoint of the insurance pricing server

This project models the `POST /api/analyze-image` handler of the server in
`app.js`. A client posts a photo of household items. The handler sends the photo
to a vision model and turns the reply into a list of priced items. It works in
four stages:

1. **Validation.** Four checks, in this order: the image is given, the prompt is
   given, an API key is configured, and the client was built at start-up. Each
   failure returns at once with a fixed status and text, and the model is not
   called.
2. **Decoding.** The reply loses its markdown code fences and is trimmed, then
   given to `JSON.parse`.
   - A parsed value that is not an array becomes a one-element list.
   - A reply that does not parse is replaced by one synthesized fallback
     candidate.
3. **Normalization.** `extractedItems.map(...)` turns every candidate into an
   item with seven fields. Each field takes the first truthy value among the
   candidate's own fields; a fixed default is the last resort.
4. **Response.** The result is either the success envelope or a reply
   classified from whatever was thrown: quota, invalid key, rate limit, model
   deprecation, or a generic failure whose message is redacted in production
   and on Lambda.

What the Dafny modules cover:

- `JsValues`: the JavaScript values the handler touches, with JavaScript's
  truthiness, `||`, property reads, `includes`, `slice`, `trim`, and template
  literals.
- `NumberParsing`: `parseFloat`, as ECMAScript's longest-prefix reading of a
  StrDecimalLiteral, for strings, numbers, arrays and the other kinds of value.
- `TextCleaning`: the global replacement of `/```json\n?|\n?```/g` followed by
  `trim`.
- `Decoding`: the parse block, with its promotion to a list and its fallback.
- `Normalization`: the map callback and the whole map, including the TypeError
  a null or undefined candidate throws.
- `ErrorMapping`: the `catch` block.
- `AnalyzeImage`: the handler. It is a method over explicit inputs: the request
  body, the environment, the model call's outcome, and `JSON.parse` as a
  function parameter. It returns the response and the request it sent to the
  model.

Where the code does something other than what a reader of the code's comments
or its summary would expect, the model follows the code:

- "Normalization is idempotent" does not hold. When a candidate has neither
  `brandOrManufacturer` nor `brand`, the item gets `brandOrManufacturer` "No
  Brand" but `brand` "". The reason is that `brand`'s chain reads the
  candidate's fields, not the normalized ones. The same happens to
  `description`.
  - `NormalizeIdempotentIff` gives the exact condition.
  - `NormalizeSettles` shows that a second pass is a fixed point.
  - `NormalizeNotIdempotentOnEmptyObject` is the counterexample.
- For the same reason, `brand` and `description` can be empty. Only
  `brandOrManufacturer` and `itemDescription` are never empty (`WellFormed`).
- A normalized text field holds whatever truthy value won its chain, which need
  not be a string. A cost is any number other than 0 and NaN. A negative cost is
  kept.
- A cost written as "Infinity" is kept as an infinite cost, since Infinity is
  truthy (`InfiniteCostIsKept`). `res.json` writes it through `JSON.stringify`,
  which prints a non-finite number as `null`, so the client receives `null` for
  that cost and not 25.99.
- A `null` element in the parsed array, or a reply that is the JSON text
  `null`, makes the map throw a TypeError. The handler then answers with the
  generic 500, not with the fallback item.
- When the model's message content is `null`, `aiResponse.replace` throws inside
  the parse block. Building the fallback then throws again at `aiResponse.slice`,
  and the handler answers with the generic 500.
- With debug logging on (neither production nor Lambda), a prompt that is truthy
  but not a string makes `prompt.substring` throw before the model is called.
- The fence replacement can bring backticks together into a new fence, so the
  cleaned text is not free of fences (`StripFencesCanLeaveAFence`).

## Model

| member | source | states |
|---|---|---|
| `JsValues.Or` | app.js:312-318 | `a \|\| b` is truthy exactly when one of its operands is, and it is one of the two operands |
| `JsValues.NumOr` | app.js:315-316 | the same for numbers: truthy exactly when one operand is, and it is one of them |
| `JsValues.SliceTo` | app.js:304 | `slice(0, n)` has length min(n, \|s\|) and is a prefix of `s` |
| `JsValues.TrimStartShape` | app.js:283 | the result is a suffix of `s`, everything removed is white space, and it does not start with white space |
| `JsValues.TrimEndShape` | app.js:283 | the result is a prefix of `s`, everything removed is white space, and it does not end with white space |
| `JsValues.TrimIsMiddle` | app.js:283 | `trim` keeps exactly a middle slice of `s` between a white-space prefix and a white-space suffix, with no white space at either end |
| `JsValues.IncludesIff` | app.js:351 | the left-to-right search of `includes` succeeds exactly when the pattern occurs at some position |
| `JsValues.DecimalStringDigits` | app.js:314 | the index printed by the template literal is all digits, with no leading zero unless it is 0 |
| `JsValues.DecimalStringValue` | app.js:314 | the printed index reads back as the number printed |
| `NumberParsing.Negate` | app.js:315-316 | a sign change keeps a number's truthiness |
| `NumberParsing.ParseFloatOfDecimal` | app.js:315-316 | `parseFloat` of a natural number's decimal rendering is that number |
| `NumberParsing.ParseFloatOfDigits` | app.js:315-316 | a non-empty run of digits reads as its value |
| `NumberParsing.ParseFloatOfFraction` | app.js:315-316 | digits, a dot and digits read as the decimal fraction they denote, either run possibly empty but not both (".99" reads as 0.99) |
| `NumberParsing.ParseFloatOfNegative` | app.js:315-316 | a leading minus negates what follows it |
| `NumberParsing.ParseFloatOfInfinity` | app.js:315-316 | the word "Infinity", with or without a minus sign and whatever follows it, reads as an infinite value |
| `NumberParsing.ParseFloatSkipsWhiteSpace` | app.js:315-316 | leading white space does not change the number read |
| `NumberParsing.ParseFloatStopsAtComma` | app.js:315-316 | text after a comma does not change the number read |
| `NumberParsing.ParseFloatArrayOfStrings` | app.js:315-316 | an array of strings reads as its joined text, whose first element decides the number |
| `NumberParsing.ParseFloatOfPrice` | app.js:315-316 | a price written `dd.dd` reads as that many hundredths |
| `NumberParsing.ParseFloatDefaultCost` | app.js:301-302 | the fallback's cost text "25.99" reads as 25.99 |
| `NumberParsing.ParseFloatOfTwelveFifty` | app.js:315 | "12.50" reads as 12.5 |
| `TextCleaning.FenceAt` | app.js:283 | a match of the fence pattern has length 3, 4, 7 or 8, lies inside the text, and starts with three backticks or a newline and three backticks |
| `TextCleaning.StripFences` | app.js:283 | the replacement never lengthens the text |
| `TextCleaning.StripFencesKeepsPlainText` | app.js:283 | text without three backticks in a row passes the replacement unchanged |
| `TextCleaning.StripFencesCanLeaveAFence` | app.js:283 | removing matches can create a new fence: the output need not be free of fences |
| `TextCleaning.CleanResponseUnwrapsCodeBlock` | app.js:283 | a reply fenced as a json code block is cleaned down to the text inside the fence, for any inside without backticks and without surrounding white space; newlines inside are kept |
| `TextCleaning.StripAfterPlainText` | app.js:283 | text without backticks is kept in front of whatever the rest of the reply strips to, when that rest does not start with a backtick |
| `Decoding.FallbackItem` | app.js:297-305 | the fallback candidate is a non-null object |
| `Decoding.FallbackItemFields` | app.js:297-305 | the fallback's seven fields as the map reads them, and no `model` field |
| `Decoding.DecodePromotesSingleValue` | app.js:287-289 | a parsed value that is not an array becomes a one-element list holding it |
| `Decoding.DecodeKeepsArray` | app.js:284-289 | a parsed array is kept as it is, same length and order; an empty array gives no candidate and no error |
| `Decoding.DecodeOfParsed` | app.js:280-305 | the candidates are the fallback item when the cleaned reply does not parse, the parsed array's elements when it parses to an array, and the parsed value alone otherwise |
| `Decoding.DecodeFallback` | app.js:293-305 | a reply that does not parse gives exactly one candidate: as description the first min(200, \|reply\|) characters of the reply, as brand "AI Analysis", as item description "Items visible in fileName", and "25.99" in both cost fields |
| `Normalization.ItemLabel` | app.js:314 | the synthesized item description is never empty |
| `Normalization.NormalizeItem` | app.js:311-319 | the callback throws exactly on a null or undefined candidate, with the TypeError of its first property read, and otherwise returns a well-formed item |
| `Normalization.FirstNullish` | app.js:311 | the first null or undefined candidate at or after a position, or the end of the list |
| `Normalization.NormalizeAll` | app.js:311-319 | the map succeeds exactly when no candidate is null or undefined; it keeps the length, item k is the callback's result on candidate k with index k, every item is well formed; on failure it throws the error of the first null or undefined candidate |
| `Normalization.NormalizeSingle` | app.js:311-319 | a one-candidate list gives the one item its candidate gives |
| `Normalization.FieldRules` | app.js:312-318 | brandOrManufacturer, modelNumber, itemDescription, costToReplace, brand and description each take the first truthy value of their chain, else the default ("No Brand", "", "Item i+1 from fileName", 25.99, "", ""); brand reads the candidate's brand before its brandOrManufacturer, and description its description before its itemDescription |
| `Normalization.BothBrandsKept` | app.js:312-317 | a candidate with brandOrManufacturer "Sony" and brand "Sony Electronics" keeps each in its own field |
| `Normalization.TotalCostFallsBackToCost` | app.js:316 | totalCost is the parsed totalCost when truthy, and otherwise the normalized costToReplace |
| `Normalization.MirroredFields` | app.js:312-318 | brand mirrors brandOrManufacturer when only one is given; when neither is, brandOrManufacturer is "No Brand" and brand is ""; the same for description and itemDescription |
| `Normalization.ItemObject` | app.js:325 | an item becomes an object again, the way a second map would see it |
| `Normalization.NormalizeAgain` | app.js:311-319 | normalizing a well-formed item again fills an empty brand from brandOrManufacturer and an empty description from itemDescription, and changes nothing else |
| `Normalization.NormalizeIdempotentIff` | app.js:311-319 | a second normalization returns the same item exactly when its brand and description are not empty |
| `Normalization.NormalizeAllIdempotentIff` | app.js:311-319 | a second map over the whole normalized list returns the same list exactly when every item's brand and description are not empty |
| `Normalization.NormalizeSettles` | app.js:311-319 | a third normalization changes nothing |
| `Normalization.NormalizeNotIdempotentOnEmptyObject` | app.js:317 | an empty object shows that one normalization is not idempotent |
| `Normalization.TruthyCostTextIsKept` | app.js:315-316 | a cost text that reads as a number other than 0 and NaN, with no total cost beside it, fills both cost fields with that number |
| `Normalization.NegativeCostIsKept` | app.js:315-316 | a cost of -5 is kept in both cost fields |
| `Normalization.InfiniteCostIsKept` | app.js:315-316 | a cost given as the text "Infinity" is kept as an infinite cost in both cost fields |
| `ErrorMapping.Classify` | app.js:334-371 | first match wins: quota code 402, else invalid-key code 401, else a "rate limit" message 429, else 500; a 500 for a "deprecated" message carries the update note; the generic 500 carries the error's message unless redacted; only 500 replies carry a message |
| `ErrorMapping.RedactedRepliesUseFixedTexts` | app.js:366-371 | in production or on Lambda no reply carries the error's own message, only fixed texts |
| `ErrorMapping.RateLimitTestIsCaseSensitive` | app.js:351 | a message saying "Rate limit" with a capital letter gets the generic 500 |
| `AnalyzeImage.Env.EnvironmentName` | app.js:330 | "AWS Lambda" on Lambda, otherwise NODE_ENV when set and non-empty; never empty |
| `AnalyzeImage.Validate` | app.js:208-239 | the request passes exactly when image and prompt are truthy and the key and the client exist; otherwise the first failing check gives its 400 or 500 reply |
| `AnalyzeImage.VisionRequest` | app.js:247-269 | the model "gpt-4o" is asked about the request's own prompt and image, at "high" detail, with at most 1000 tokens and temperature 0.1 |
| `AnalyzeImage.HandleAnalyzeImage` | app.js:194-372 | the model is called exactly when validation passes and the prompt log does not throw; failed validation, the prompt-log error, a rejected model call and a null reply each give their reply; a reply with content gives the success envelope over the normalized candidates or the classified error the map threw; status 200 exactly for the envelope, whose count is its item count and whose items are well formed |
| `AnalyzeImage.RespondToReply` | app.js:279-332 | decode, normalize, then the envelope; the original reply is shown only with debug logging |
| `AnalyzeImage.Respond` | app.js:322-371 | a normalized list is answered with status 200 and the success envelope, whose count is the list's length and whose original response is hidden unless debug logging is on; a thrown error is answered with its classified reply, never with status 200 |
| `AnalyzeImage.ExtractItems` | app.js:280-308 | the candidate list built step by step is the decoded candidate list, and the fallback alone when the reply does not parse |
| `AnalyzeImage.FallbackNormalizes` | app.js:297-319 | the fallback always normalizes without error: "AI Analysis" in both brand fields, 25.99 in both costs, and the start of the reply as description, or the item description when the reply is empty |
| `AnalyzeImage.FallbackItemNormalizes` | app.js:297-319 | the fallback candidate's item, field by field |
| `AnalyzeImage.NormalizeFallbackShape` | app.js:312-318 | a candidate with a brand, an empty brand field, no model, a description, some text and one cost text in both cost fields normalizes to the item those fields give |
| `AnalyzeImage.SingleObjectScenario` | app.js:284-319 | a reply that parses to one object with a brand and the cost "12.50" gives one item with both costs 12.5 and the synthesized description |
| `AnalyzeImage.FencedListScenario` | app.js:283-319 | the same object as a one-element list inside a json code block, with any backtick-free trimmed text for the list, gives the same one item |
| `AnalyzeImage.AcmeObjectNormalizes` | app.js:311-319 | that object's item, field by field |
| `AnalyzeImage.NormalizeBrandAndCost` | app.js:312-318 | a candidate with only a brand and a cost text normalizes to that brand in both brand fields, that cost in both cost fields, and the synthesized description |

## Left out

- Console logging throughout, and the request-details log at the start, which cannot throw.
- The timestamp fields of the success envelope and of the generic error reply (`processingTime`, `timestamp`): they come from the clock.
- The OpenAI client and the network call. The client's construction at start-up is the flag `clientReady`, and the call's result is the parameter `outcome`. The outcome carries the first choice's content or the error the call rejected with. A reply with an empty `choices` list, whose read of `choices[0].message` would throw, is not modelled.
- `JSON.parse` is the parameter `jsonParse`, which gives None where JSON.parse would throw.
- A missing `req.body`, whose destructuring would throw a TypeError. The request is always the three fields read from a body, and `fileName` is a string or absent; a non-string file name is not modelled.
- NumberParsing.ParseFloat: finite numbers are exact reals, so IEEE rounding, overflow to Infinity and underflow to zero are not modelled. An object with its own `toString` converts as a plain object here; in the source, an own `toString` that is not callable makes `parseFloat` throw a TypeError (for example a candidate `{"costToReplace": {"toString": "x"}}`), so the map throws and the handler answers with the generic 500, while the model reads NaN and gives 25.99. A number argument is assumed to print as text that reads back as the same number.
- Strings are sequences of Unicode characters, not UTF-16 code units. `slice(0, 200)` can differ from the model for text with characters outside the Basic Multilingual Plane.
- The serialization of the success envelope by `res.json` (app.js:323-332). The model's body is the value handed to it; `JSON.stringify` would print an infinite cost as `null`.
- The rest of the repository: Express set-up, middleware, static files, the other routes, the CSV routes, the Lambda wrapper, the server start-up and the deployment scripts.
