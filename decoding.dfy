/** The decode stage: the model's reply is cleaned and given to JSON.parse; a parsed
    value that is not an array becomes a one-element list, and a reply that does not
    parse becomes exactly one synthesized fallback candidate. JSON.parse itself is
    not modelled: it is the parameter `jsonParse`, which gives None where JSON.parse
    throws. */
module Decoding {
  import opened JsValues
  import opened TextCleaning

  /** The two outcomes of decoding: the parsed candidates, or the one fallback item. */
  datatype Decoded = Structured(items: seq<JsValue>) | Fallback(item: JsValue) {
    /** The candidate list handed to the normalization stage. */
    function Candidates(): seq<JsValue>
    {
      match this
      case Structured(items) => items
      case Fallback(item) => [item]
    }
  }

  /** The brand written into the fallback item. */
  const FallbackBrand := "AI Analysis"
  /** The cost text written into both cost fields of the fallback item. */
  const FallbackCostText := "25.99"
  /** How much of the raw reply the fallback item keeps as its description. */
  const FallbackDescriptionLength: nat := 200

  /** The candidate synthesized from a reply that does not parse. */
  function FallbackItem(raw: string, fileName: Option<string>): (v: JsValue)
    ensures v.Object? && !Nullish(v)
  {
    Object(map[
      "brandOrManufacturer" := Str(FallbackBrand),
      "modelNumber" := Str(""),
      "itemDescription" := Str("Items visible in " + TemplateString(fileName)),
      "costToReplace" := Str(FallbackCostText),
      "totalCost" := Str(FallbackCostText),
      "brand" := Str(""),
      "description" := Str(SliceTo(raw, FallbackDescriptionLength))])
  }

  /** The structured-then-fallback decoding of one reply. */
  function Decode(raw: string, fileName: Option<string>, jsonParse: string -> Option<JsValue>): Decoded {
    match jsonParse(CleanResponse(raw))
    case Some(v) => Structured(if v.Array? then v.elems else [v])
    case None => Fallback(FallbackItem(raw, fileName))
  }

  /** A parsed value that is not an array becomes a one-element list. */
  lemma DecodePromotesSingleValue(raw: string, fileName: Option<string>, jsonParse: string -> Option<JsValue>)
    requires jsonParse(CleanResponse(raw)).Some? && !jsonParse(CleanResponse(raw)).value.Array?
    ensures Decode(raw, fileName, jsonParse).Candidates() == [jsonParse(CleanResponse(raw)).value]
  {
  }

  /** A parsed array is kept as it is: same length, same order; an empty array gives
      no candidate and is not an error. */
  lemma DecodeKeepsArray(raw: string, fileName: Option<string>, jsonParse: string -> Option<JsValue>, elems: seq<JsValue>)
    requires jsonParse(CleanResponse(raw)) == Some(Array(elems))
    ensures Decode(raw, fileName, jsonParse) == Structured(elems)
    ensures |Decode(raw, fileName, jsonParse).Candidates()| == |elems|
  {
  }

  /** A reply that does not parse gives exactly one candidate: its description is the
      first min(200, |raw|) characters of the raw reply, its brand "AI Analysis", its
      item description names the file, and both its costs are the text "25.99". */
  lemma DecodeFallback(raw: string, fileName: Option<string>, jsonParse: string -> Option<JsValue>)
    requires jsonParse(CleanResponse(raw)).None?
    ensures var c := Decode(raw, fileName, jsonParse).Candidates();
      && |c| == 1 && c[0].Object?
      && Prop(c[0], "description").Str?
      && StartsWith(raw, Prop(c[0], "description").s)
      && |Prop(c[0], "description").s| == (if |raw| < FallbackDescriptionLength then |raw| else FallbackDescriptionLength)
      && Prop(c[0], "brandOrManufacturer") == Str(FallbackBrand)
      && Prop(c[0], "itemDescription") == Str("Items visible in " + TemplateString(fileName))
      && Prop(c[0], "costToReplace") == Str(FallbackCostText)
      && Prop(c[0], "totalCost") == Str(FallbackCostText)
  {
    DecodeOfParsed(raw, fileName, jsonParse);
    FallbackItemFields(raw, fileName);
  }

  /** The fields of the fallback candidate as the normalization map reads them. */
  lemma FallbackItemFields(raw: string, fileName: Option<string>)
    ensures var v := FallbackItem(raw, fileName);
      && Prop(v, "brandOrManufacturer") == Str(FallbackBrand)
      && Prop(v, "modelNumber") == Str("")
      && Prop(v, "itemDescription") == Str("Items visible in " + TemplateString(fileName))
      && Prop(v, "costToReplace") == Str("25.99")
      && Prop(v, "totalCost") == Str("25.99")
      && Prop(v, "brand") == Str("")
      && Prop(v, "description") == Str(SliceTo(raw, FallbackDescriptionLength))
      && Prop(v, "model") == Undefined
  {
    var v := FallbackItem(raw, fileName);
    assert "model" !in v.fields by {
      assert v.fields.Keys == {"brandOrManufacturer", "modelNumber", "itemDescription", "costToReplace",
                               "totalCost", "brand", "description"};
      assert |"model"| == 5;
    }
  }

  /** Decoding in terms of the parse result alone. */
  lemma DecodeOfParsed(raw: string, fileName: Option<string>, jsonParse: string -> Option<JsValue>)
    ensures var parsed := jsonParse(CleanResponse(raw));
      Decode(raw, fileName, jsonParse).Candidates()
      == if parsed.None? then [FallbackItem(raw, fileName)]
         else if parsed.value.Array? then parsed.value.elems
         else [parsed.value]
  {
  }
}
