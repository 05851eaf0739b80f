/** The normalization stage: `extractedItems.map((item, index) => ({ ... }))`, which
    turns each loosely typed candidate into a record with all seven fields present by
    first-truthy-wins defaulting. */
module Normalization {
  import opened JsValues
  import opened NumberParsing

  /** The replacement cost used when none can be read. */
  const DefaultCost: real := 25.99

  /** A normalized item. The text fields hold whatever value won its `||` chain: a
      string in the usual case, but any truthy value the model returned is kept as it
      is. */
  datatype Item = Item(
    brandOrManufacturer: JsValue,
    modelNumber: JsValue,
    itemDescription: JsValue,
    costToReplace: Num,
    totalCost: Num,
    brand: JsValue,
    description: JsValue)

  /** A field that may be empty is a truthy value or the empty string, never null,
      undefined or another falsy value. */
  predicate PresentOrEmpty(v: JsValue) {
    Truthy(v) || v == Str("")
  }

  /** The shape every normalized item has: brandOrManufacturer and itemDescription are
      never empty, both costs are numbers other than 0 and NaN, and the other three
      fields are present. */
  predicate WellFormed(it: Item) {
    && Truthy(it.brandOrManufacturer)
    && Truthy(it.itemDescription)
    && NumTruthy(it.costToReplace)
    && NumTruthy(it.totalCost)
    && PresentOrEmpty(it.modelNumber)
    && PresentOrEmpty(it.brand)
    && PresentOrEmpty(it.description)
  }

  /** The description synthesized for the item at a 0-based `index`. */
  function ItemLabel(index: nat, fileName: Option<string>): (s: string)
    ensures s != ""
  {
    "Item " + DecimalString(index + 1) + " from " + TemplateString(fileName)
  }

  /** One call of the map callback. Reading a property of a null or undefined element
      throws a TypeError at the first property read. */
  function NormalizeItem(item: JsValue, index: nat, fileName: Option<string>): (r: Result<Item>)
    ensures r.Ok? <==> !Nullish(item)
    ensures r.Ok? ==> WellFormed(r.value)
    ensures r.Throw? ==> r.error == ReadPropertyError(item, "brandOrManufacturer")
  {
    if Nullish(item) then Throw(ReadPropertyError(item, "brandOrManufacturer"))
    else
      Ok(Item(
        brandOrManufacturer := Or(Or(Prop(item, "brandOrManufacturer"), Prop(item, "brand")), Str("No Brand")),
        modelNumber := Or(Or(Prop(item, "modelNumber"), Prop(item, "model")), Str("")),
        itemDescription := Or(Or(Prop(item, "itemDescription"), Prop(item, "description")),
                              Str(ItemLabel(index, fileName))),
        costToReplace := NumOr(ParseFloat(Prop(item, "costToReplace")), Finite(DefaultCost)),
        totalCost := NumOr(NumOr(ParseFloat(Prop(item, "totalCost")), ParseFloat(Prop(item, "costToReplace"))),
                           Finite(DefaultCost)),
        brand := Or(Or(Prop(item, "brand"), Prop(item, "brandOrManufacturer")), Str("")),
        description := Or(Or(Prop(item, "description"), Prop(item, "itemDescription")), Str(""))))
  }

  /** The position of the first null or undefined candidate at or after `from`, or
      `|items|` when there is none. */
  function FirstNullish(items: seq<JsValue>, from: nat): (k: nat)
    requires from <= |items|
    ensures from <= k <= |items|
    ensures k < |items| ==> Nullish(items[k])
    ensures forall j :: from <= j < k ==> !Nullish(items[j])
    decreases |items| - from
  {
    if from == |items| || Nullish(items[from]) then from else FirstNullish(items, from + 1)
  }

  /** `extractedItems.map(...)`. The callback is called on each candidate with its
      index, in order; it throws only on a null or undefined candidate, so the map
      throws the error of the first such candidate, and otherwise returns one item per
      candidate. Output item `k` is derived from candidate `k` and the index `k` alone,
      the length is kept, and every item is well formed. */
  function NormalizeAll(items: seq<JsValue>, fileName: Option<string>): (r: Result<seq<Item>>)
    ensures r.Ok? <==> forall k :: 0 <= k < |items| ==> !Nullish(items[k])
    ensures r.Ok? ==> |r.value| == |items|
    ensures r.Ok? ==> forall k :: 0 <= k < |items| ==> NormalizeItem(items[k], k, fileName) == Ok(r.value[k])
    ensures r.Ok? ==> forall k :: 0 <= k < |items| ==> WellFormed(r.value[k])
    ensures r.Throw? ==> exists k :: 0 <= k < |items| && Nullish(items[k])
                                   && r.error == ReadPropertyError(items[k], "brandOrManufacturer")
                                   && forall j :: 0 <= j < k ==> !Nullish(items[j])
  {
    var first := FirstNullish(items, 0);
    if first < |items| then Throw(NormalizeItem(items[first], first, fileName).error)
    else Ok(seq(|items|, k requires 0 <= k < |items| => NormalizeItem(items[k], k, fileName).value))
  }

  /** A one-candidate list normalizes to the one item its candidate gives. */
  lemma NormalizeSingle(x: JsValue, fileName: Option<string>)
    requires !Nullish(x)
    ensures NormalizeAll([x], fileName) == Ok([NormalizeItem(x, 0, fileName).value])
  {
    var r := NormalizeAll([x], fileName);
    assert r.Ok? && |r.value| == 1;
    assert NormalizeItem([x][0], 0, fileName) == Ok(r.value[0]);
    assert r.value == [r.value[0]];
  }

  /** The derivation rules, field by field, first match wins. */
  lemma FieldRules(item: JsValue, index: nat, fileName: Option<string>)
    requires !Nullish(item)
    ensures var it := NormalizeItem(item, index, fileName).value;
      && it.brandOrManufacturer == (if Truthy(Prop(item, "brandOrManufacturer")) then Prop(item, "brandOrManufacturer")
                                    else if Truthy(Prop(item, "brand")) then Prop(item, "brand")
                                    else Str("No Brand"))
      && it.modelNumber == (if Truthy(Prop(item, "modelNumber")) then Prop(item, "modelNumber")
                            else if Truthy(Prop(item, "model")) then Prop(item, "model")
                            else Str(""))
      && it.itemDescription == (if Truthy(Prop(item, "itemDescription")) then Prop(item, "itemDescription")
                                else if Truthy(Prop(item, "description")) then Prop(item, "description")
                                else Str(ItemLabel(index, fileName)))
      && it.costToReplace == (if NumTruthy(ParseFloat(Prop(item, "costToReplace")))
                              then ParseFloat(Prop(item, "costToReplace")) else Finite(DefaultCost))
      && it.brand == (if Truthy(Prop(item, "brand")) then Prop(item, "brand")
                      else if Truthy(Prop(item, "brandOrManufacturer")) then Prop(item, "brandOrManufacturer")
                      else Str(""))
      && it.description == (if Truthy(Prop(item, "description")) then Prop(item, "description")
                            else if Truthy(Prop(item, "itemDescription")) then Prop(item, "itemDescription")
                            else Str(""))
  {
  }

  /** When a candidate gives both brand fields, each keeps its own: brand is read
      before brandOrManufacturer in brand's chain, and the other way round in
      brandOrManufacturer's. */
  lemma BothBrandsKept()
    ensures var it := NormalizeItem(Object(map["brandOrManufacturer" := Str("Sony"),
                                                "brand" := Str("Sony Electronics")]), 0, None).value;
            it.brandOrManufacturer == Str("Sony") && it.brand == Str("Sony Electronics")
  {
    var v := Object(map["brandOrManufacturer" := Str("Sony"), "brand" := Str("Sony Electronics")]);
    assert Prop(v, "brandOrManufacturer") == Str("Sony");
    assert Prop(v, "brand") == Str("Sony Electronics");
    FieldRules(v, 0, None);
  }

  /** An unreadable total cost falls back to the normalized replacement cost. */
  lemma TotalCostFallsBackToCost(item: JsValue, index: nat, fileName: Option<string>)
    requires !Nullish(item)
    ensures var it := NormalizeItem(item, index, fileName).value;
      && (NumTruthy(ParseFloat(Prop(item, "totalCost"))) ==> it.totalCost == ParseFloat(Prop(item, "totalCost")))
      && (!NumTruthy(ParseFloat(Prop(item, "totalCost"))) ==> it.totalCost == it.costToReplace)
  {
  }

  /** brand and brandOrManufacturer mirror each other when only one of them is given;
      when neither is, brandOrManufacturer is "No Brand" but brand stays empty, because
      brand's chain reads the candidate's fields rather than the normalized ones. The
      same holds of description and itemDescription. */
  lemma MirroredFields(item: JsValue, index: nat, fileName: Option<string>)
    requires !Nullish(item)
    ensures var it := NormalizeItem(item, index, fileName).value;
      var bom, brand := Prop(item, "brandOrManufacturer"), Prop(item, "brand");
      var idesc, desc := Prop(item, "itemDescription"), Prop(item, "description");
      && (Truthy(bom) != Truthy(brand) ==> it.brand == it.brandOrManufacturer)
      && (!Truthy(bom) && !Truthy(brand) ==> it.brand == Str("") && it.brandOrManufacturer == Str("No Brand"))
      && (Truthy(idesc) != Truthy(desc) ==> it.description == it.itemDescription)
      && (!Truthy(idesc) && !Truthy(desc) ==>
            it.description == Str("") && it.itemDescription == Str(ItemLabel(index, fileName)))
  {
  }

  /** A normalized item as a plain object again, the way a second `map` over the
      output would see it. */
  function ItemObject(it: Item): (v: JsValue)
    ensures v.Object? && !Nullish(v)
  {
    Object(map[
      "brandOrManufacturer" := it.brandOrManufacturer,
      "modelNumber" := it.modelNumber,
      "itemDescription" := it.itemDescription,
      "costToReplace" := Number(it.costToReplace),
      "totalCost" := Number(it.totalCost),
      "brand" := it.brand,
      "description" := it.description])
  }

  /** Normalizing a well-formed item again changes at most brand and description: an
      empty brand takes brandOrManufacturer, an empty description takes itemDescription. */
  lemma NormalizeAgain(it: Item, index: nat, fileName: Option<string>)
    requires WellFormed(it)
    ensures NormalizeItem(ItemObject(it), index, fileName)
            == Ok(it.(brand := Or(it.brand, it.brandOrManufacturer),
                      description := Or(it.description, it.itemDescription)))
  {
    var v := ItemObject(it);
    assert Prop(v, "brandOrManufacturer") == it.brandOrManufacturer;
    assert Prop(v, "brand") == it.brand;
    assert Prop(v, "modelNumber") == it.modelNumber;
    assert Prop(v, "model") == Undefined;
    assert Prop(v, "itemDescription") == it.itemDescription;
    assert Prop(v, "description") == it.description;
    assert ParseFloat(Prop(v, "costToReplace")) == it.costToReplace;
    assert ParseFloat(Prop(v, "totalCost")) == it.totalCost;
  }

  /** Normalization is idempotent on a well-formed item exactly when its brand and
      description are not empty. */
  lemma NormalizeIdempotentIff(it: Item, index: nat, fileName: Option<string>)
    requires WellFormed(it)
    ensures NormalizeItem(ItemObject(it), index, fileName) == Ok(it)
            <==> Truthy(it.brand) && Truthy(it.description)
  {
    NormalizeAgain(it, index, fileName);
    if !Truthy(it.brand) {
      assert Or(it.brand, it.brandOrManufacturer) != it.brand;
    }
    if !Truthy(it.description) {
      assert Or(it.description, it.itemDescription) != it.description;
    }
  }

  /** The normalized items as plain objects, in order, as a second `map` reads them. */
  function AsObjects(items: seq<Item>): seq<JsValue> {
    seq(|items|, i requires 0 <= i < |items| => ItemObject(items[i]))
  }

  /** A second map over the whole output gives the same list back exactly when every
      item has a non-empty brand and a non-empty description. */
  lemma NormalizeAllIdempotentIff(candidates: seq<JsValue>, fileName: Option<string>, r: seq<Item>)
    requires NormalizeAll(candidates, fileName) == Ok(r)
    ensures NormalizeAll(AsObjects(r), fileName) == Ok(r)
            <==> forall i :: 0 <= i < |r| ==> Truthy(r[i].brand) && Truthy(r[i].description)
  {
    var v := AsObjects(r);
    forall i | 0 <= i < |r|
      ensures (NormalizeItem(v[i], i, fileName) == Ok(r[i])) <==> Truthy(r[i].brand) && Truthy(r[i].description)
    {
      AgainAt(r, i, fileName);
    }
    var again := NormalizeAll(v, fileName);
    assert again.Ok?;
    if forall i :: 0 <= i < |r| ==> Truthy(r[i].brand) && Truthy(r[i].description) {
      assert again.value == r;
    }
  }

  lemma AgainAt(r: seq<Item>, i: nat, fileName: Option<string>)
    requires i < |r| && WellFormed(r[i])
    ensures (NormalizeItem(AsObjects(r)[i], i, fileName) == Ok(r[i]))
            <==> Truthy(r[i].brand) && Truthy(r[i].description)
  {
    assert AsObjects(r)[i] == ItemObject(r[i]);
    NormalizeIdempotentIff(r[i], i, fileName);
  }

  /** A second normalization reaches a fixed point: a third one changes nothing. */
  lemma NormalizeSettles(it: Item, index: nat, fileName: Option<string>)
    requires WellFormed(it)
    ensures NormalizeItem(ItemObject(it), index, fileName).Ok?
    ensures var again := NormalizeItem(ItemObject(it), index, fileName).value;
            NormalizeItem(ItemObject(again), index, fileName) == Ok(again)
  {
    NormalizeAgain(it, index, fileName);
    var again := NormalizeItem(ItemObject(it), index, fileName).value;
    NormalizeIdempotentIff(again, index, fileName);
  }

  /** An empty object shows that a single normalization is not always idempotent. */
  lemma NormalizeNotIdempotentOnEmptyObject()
    ensures var it := NormalizeItem(Object(map[]), 0, None).value;
            NormalizeItem(ItemObject(it), 0, None) != Ok(it)
  {
    var it := NormalizeItem(Object(map[]), 0, None).value;
    assert it.brand == Str("");
    NormalizeIdempotentIff(it, 0, None);
  }

  /** A negative cost is kept: the defaulting only replaces 0, NaN and absent values. */
  lemma NegativeCostIsKept()
    ensures NormalizeItem(Object(map["costToReplace" := Number(Finite(-5.0))]), 0, None).value.costToReplace
            == Finite(-5.0)
    ensures NormalizeItem(Object(map["costToReplace" := Number(Finite(-5.0))]), 0, None).value.totalCost
            == Finite(-5.0)
  {
    var v := Object(map["costToReplace" := Number(Finite(-5.0))]);
    assert Prop(v, "costToReplace") == Number(Finite(-5.0));
    assert Prop(v, "totalCost") == Undefined;
  }

  /** A cost given as the text "Infinity" is kept as an infinite cost in both cost
      fields: an infinite value is truthy, so the default does not replace it. */
  lemma InfiniteCostIsKept()
    ensures NormalizeItem(Object(map["costToReplace" := Str("Infinity")]), 0, None).value.costToReplace
            == Infinity(false)
    ensures NormalizeItem(Object(map["costToReplace" := Str("Infinity")]), 0, None).value.totalCost
            == Infinity(false)
  {
    var v := Object(map["costToReplace" := Str("Infinity")]);
    assert Prop(v, "costToReplace") == Str("Infinity");
    assert Prop(v, "totalCost") == Undefined;
    ParseFloatOfInfinity("");
    assert "Infinity" + "" == "Infinity";
    TruthyCostTextIsKept(v, "Infinity", Infinity(false));
  }

  /** A cost text that reads as a truthy number, with no total cost beside it, fills
      both cost fields with that number. */
  lemma TruthyCostTextIsKept(v: JsValue, cost: string, n: Num)
    requires v.Object? && Prop(v, "costToReplace") == Str(cost) && Prop(v, "totalCost") == Undefined
    requires ParseFloatString(cost) == n && NumTruthy(n)
    ensures NormalizeItem(v, 0, None).value.costToReplace == n
    ensures NormalizeItem(v, 0, None).value.totalCost == n
  {
  }
}
