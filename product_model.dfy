/** The product record of backend/models/Product.js: a weight-option
    enumeration, non-negative prices and stock, and the defaults Mongoose
    fills in when a product is created. */
module ProductModel {
  import opened Common

  /** The three weights a weight option may carry. */
  datatype Weight = HalfKg | OneKg | TwoKg

  function WeightLabel(w: Weight): string
  {
    match w
    case HalfKg => "½ kg"
    case OneKg => "1 kg"
    case TwoKg => "2 kg"
  }

  /** The schema's enum check on a weight string. */
  function ParseWeight(s: string): (r: Option<Weight>)
    ensures r.Some? ==> WeightLabel(r.value) == s
  {
    if s == "½ kg" then Some(HalfKg)
    else if s == "1 kg" then Some(OneKg)
    else if s == "2 kg" then Some(TwoKg)
    else None
  }

  /** Every enum value is accepted, and only the enum values are. */
  lemma WeightLabelRoundTrip(w: Weight, s: string)
    ensures ParseWeight(WeightLabel(w)) == Some(w)
    ensures ParseWeight(s).Some? <==> s in {"½ kg", "1 kg", "2 kg"}
  {
  }

  /** The weight is stored as the string the client sent; the schema checks it. */
  datatype WeightOption = WeightOption(weight: string, price: real)

  datatype Product = Product(
    name: string,
    description: string,
    category: string,
    images: seq<string>,
    price: real,
    weightOptions: seq<WeightOption>,
    isEggless: bool,
    hasEggOption: bool,
    stock: real,
    orderCount: int,
    isActive: bool,
    isPreOrder: bool,
    preOrderAvailableDate: Option<int>,
    preOrderDeliveryDate: Option<int>)

  predicate WeightOptionValid(w: WeightOption)
  {
    ParseWeight(w.weight).Some? && w.price >= 0.0
  }

  /** What the schema's validators demand of a stored product. */
  predicate SchemaValid(p: Product)
  {
    && p.name != ""
    && p.category != ""
    && p.price >= 0.0
    && (forall i :: 0 <= i < |p.weightOptions| ==> WeightOptionValid(p.weightOptions[i]))
    && p.stock >= 0.0
  }

  /** A new product document: the given required fields plus the schema defaults. The
      name's `trim` setter runs first, so a name of white space only fails `required`. */
  function NewProduct(name: string, category: string, price: real,
                      weightOptions: seq<WeightOption>, images: seq<string>): (p: Product)
    ensures p.name == Trim(name)
    ensures p.description == "" && !p.isEggless && p.hasEggOption
    ensures p.stock == 0.0 && p.orderCount == 0 && p.isActive
    ensures !p.isPreOrder && p.preOrderAvailableDate == None && p.preOrderDeliveryDate == None
    ensures SchemaValid(p) <==>
              (exists k :: 0 <= k < |name| && !IsWhiteSpace(name[k])) && category != "" && price >= 0.0 &&
              forall i :: 0 <= i < |weightOptions| ==> WeightOptionValid(weightOptions[i])
  {
    Product(Trim(name), "", category, images, price, weightOptions, false, true,
            0.0, 0, true, false, None, None)
  }

  /** A name of white space only is refused, a name without surrounding white space is
      stored as given, and trimming the name before creating the product changes nothing. */
  lemma NameTrimmed(name: string, category: string, price: real,
                    weightOptions: seq<WeightOption>, images: seq<string>)
    ensures (forall k :: 0 <= k < |name| ==> IsWhiteSpace(name[k])) ==>
              !SchemaValid(NewProduct(name, category, price, weightOptions, images))
    ensures name == [] || (!IsWhiteSpace(name[0]) && !IsWhiteSpace(name[|name| - 1])) ==>
              NewProduct(name, category, price, weightOptions, images).name == name
    ensures NewProduct(Trim(name), category, price, weightOptions, images) ==
              NewProduct(name, category, price, weightOptions, images)
  {
    TrimIdempotent(name);
  }

  /** The weight of every option of a valid product is one of the three labels. */
  lemma ValidOptionWeights(p: Product, i: nat)
    requires SchemaValid(p) && i < |p.weightOptions|
    ensures p.weightOptions[i].weight in {"½ kg", "1 kg", "2 kg"}
    ensures p.weightOptions[i].price >= 0.0
  {
    WeightLabelRoundTrip(HalfKg, p.weightOptions[i].weight);
  }

  /** `weightOptions.find(w => w.weight === weight)`: the first option with that weight. */
  function FindWeight(options: seq<WeightOption>, weight: string): (r: Option<WeightOption>)
    ensures r.None? <==> forall k :: 0 <= k < |options| ==> options[k].weight != weight
    ensures r.Some? ==> exists k :: 0 <= k < |options| && options[k] == r.value &&
                                    r.value.weight == weight &&
                                    forall j :: 0 <= j < k ==> options[j].weight != weight
    decreases |options|
  {
    if options == [] then None
    else if options[0].weight == weight then Some(options[0])
    else
      var r := FindWeight(options[1..], weight);
      assert r.Some? ==> exists k :: 0 <= k < |options[1..]| && options[1..][k] == r.value &&
                                     forall j :: 0 <= j < k ==> options[1..][j].weight != weight;
      if r.Some? then
        var k :| 0 <= k < |options[1..]| && options[1..][k] == r.value &&
                 forall j :: 0 <= j < k ==> options[1..][j].weight != weight;
        assert options[k + 1] == r.value;
        r
      else r
  }
}
