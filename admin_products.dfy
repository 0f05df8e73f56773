/** The list edits of the admin product form in
    frontend/src/pages/admin/Products.jsx: the image picker with its cap of
    ten images, removing and replacing images, adding and editing weight
    options, the form defaults when a product is opened for editing, and the
    image list that is saved. Picked files are values of a type parameter;
    the upload endpoints' answers are parameters. */
module AdminProducts {
  import opened Common
  import P = ProductModel

  /** The most images a product may have, counting saved and newly picked ones. */
  const MaxImages: int := 10

  // ---------------------------------------------------------------------
  // Images

  /** The notice the picker shows. */
  datatype Notice = NoNotice | MaximumReached | OnlyAdded(count: int)

  /** `handleImageChange`: the new list of picked files and the notice shown. */
  function HandleImageChange<F>(images: seq<string>, files: seq<F>, picked: seq<F>): (seq<F>, Notice)
  {
    if |picked| == 0 then (files, NoNotice)
    else
      var remaining := MaxImages - (|images| + |files|);
      if remaining <= 0 then (files, MaximumReached)
      else
        var toAdd := picked[..if remaining < |picked| then remaining else |picked|];
        (files + toAdd, if |picked| > remaining then OnlyAdded(remaining) else NoNotice)
  }

  /** When the saved and picked images already number ten or more, picking adds nothing. */
  lemma ImageCapReached<F>(images: seq<string>, files: seq<F>, picked: seq<F>)
    requires |images| + |files| >= MaxImages
    ensures HandleImageChange(images, files, picked).0 == files
    ensures |picked| > 0 ==> HandleImageChange(images, files, picked).1 == MaximumReached
  {
  }

  /** Below the cap, picking appends the first (10 - count) picked files in their order, the
      whole pick when it fits; the notice names the count actually added when some were
      dropped. The total never rises above ten. */
  lemma ImageCapKept<F>(images: seq<string>, files: seq<F>, picked: seq<F>)
    requires |images| + |files| < MaxImages
    ensures var (files', notice) := HandleImageChange(images, files, picked);
            var remaining := MaxImages - (|images| + |files|);
            && |images| + |files'| <= MaxImages
            && |files| <= |files'| && files'[..|files|] == files
            && files'[|files|..] == picked[..|files'| - |files|]
            && (|picked| <= remaining ==> files' == files + picked)
            && (|picked| > remaining ==> |files'| - |files| == remaining && notice == OnlyAdded(remaining))
  {
    var (files', notice) := HandleImageChange(images, files, picked);
    if |picked| > 0 {
      var remaining := MaxImages - (|images| + |files|);
      var toAdd := picked[..if remaining < |picked| then remaining else |picked|];
      assert files' == files + toAdd;
      assert files'[..|files|] == files;
      assert files'[|files|..] == toAdd;
    } else {
      assert picked[..0] == [];
    }
  }

  /** `filter((_, i) => i !== index)`: every element whose position is not `index`, in order. */
  function RemoveIndex<T>(s: seq<T>, index: int): seq<T>
    decreases |s|
  {
    if |s| == 0 then []
    else RemoveIndex(s[..|s| - 1], index) + (if |s| - 1 == index then [] else [s[|s| - 1]])
  }

  /** Removing a position that exists drops exactly that element and keeps the rest in order;
      removing one that does not exist changes nothing. */
  lemma {:induction false} RemoveIndexSpec<T>(s: seq<T>, index: int)
    ensures 0 <= index < |s| ==> RemoveIndex(s, index) == s[..index] + s[index + 1..]
    ensures !(0 <= index < |s|) ==> RemoveIndex(s, index) == s
    decreases |s|
  {
    if |s| > 0 {
      var init := s[..|s| - 1];
      RemoveIndexSpec(init, index);
      if index == |s| - 1 {
        assert init == s[..index] && s[index + 1..] == [];
      } else if 0 <= index < |s| - 1 {
        assert init[..index] == s[..index];
        assert init[index + 1..] + [s[|s| - 1]] == s[index + 1..];
      } else {
        assert init + [s[|s| - 1]] == s;
      }
    }
  }

  /** `removeImage`: drops one picked file. */
  function RemoveImage<F>(files: seq<F>, index: int): (r: seq<F>)
    ensures 0 <= index < |files| ==>
              |r| == |files| - 1 &&
              (forall k :: 0 <= k < index ==> r[k] == files[k]) &&
              (forall k :: index <= k < |r| ==> r[k] == files[k + 1])
    ensures !(0 <= index < |files|) ==> r == files
  {
    RemoveIndexSpec(files, index);
    RemoveIndex(files, index)
  }

  /** `removeExistingImage`: the form with one saved image URL dropped and every other
      field as it was. */
  function RemoveExistingImage(form: Form, index: int): (r: Form)
    ensures r.(images := form.images) == form
    ensures 0 <= index < |form.images| ==> r.images == form.images[..index] + form.images[index + 1..]
    ensures !(0 <= index < |form.images|) ==> r == form
  {
    RemoveIndexSpec(form.images, index);
    form.(images := RemoveIndex(form.images, index))
  }

  /** `replaceExistingImage`: with a file chosen and the single upload answered with a URL,
      the image at `index` becomes that URL; otherwise the list is unchanged. The index is
      always that of a displayed image. */
  method ReplaceExistingImage(images: seq<string>, index: nat, fileChosen: bool, uploaded: Option<string>)
    returns (images': seq<string>)
    requires index < |images|
    ensures !fileChosen || uploaded.None? ==> images' == images
    ensures fileChosen && uploaded.Some? ==>
              |images'| == |images| && images'[index] == uploaded.value &&
              forall k :: 0 <= k < |images| && k != index ==> images'[k] == images[k]
  {
    if !fileChosen || uploaded.None? {
      return images;
    }
    var copy := new string[|images|](k requires 0 <= k < |images| => images[k]);
    copy[index] := uploaded.value;
    images' := copy[..];
  }

  // ---------------------------------------------------------------------
  // Weight options

  /** A price field of the form: text the admin typed or a number loaded from a product. */
  datatype PriceField = Entered(text: string) | Stored(amount: real)

  datatype FormOption = FormOption(weight: string, price: PriceField)

  /** `addWeightOption`: a new '1 kg' row with an empty price after the others. */
  function AddWeightOption(options: seq<FormOption>): (r: seq<FormOption>)
    ensures |r| == |options| + 1 && r[..|options|] == options
    ensures r[|options|].weight == P.WeightLabel(P.OneKg) && r[|options|].price == Entered("")
  {
    options + [FormOption("1 kg", Entered(""))]
  }

  /** Which field of a row `updateWeightOption` sets. */
  datatype OptionField = WeightField | PriceValue

  /** `updateWeightOption`: a copy of the rows with one field of one row set to the typed
      value; the row index is always that of a displayed row. */
  method UpdateWeightOption(options: seq<FormOption>, index: nat, field: OptionField, value: string)
    returns (options': seq<FormOption>)
    requires index < |options|
    ensures |options'| == |options|
    ensures forall k :: 0 <= k < |options| && k != index ==> options'[k] == options[k]
    ensures field == WeightField ==> options'[index] == options[index].(weight := value)
    ensures field == PriceValue ==> options'[index] == options[index].(price := Entered(value))
  {
    var updated := new FormOption[|options|](k requires 0 <= k < |options| => options[k]);
    var row := updated[index];
    match field {
      case WeightField => updated[index] := row.(weight := value);
      case PriceValue => updated[index] := row.(price := Entered(value));
    }
    options' := updated[..];
  }

  // ---------------------------------------------------------------------
  // Editing

  /** The form's fields. */
  datatype Form = Form(
    name: string,
    description: string,
    category: string,
    price: PriceField,
    weightOptions: seq<FormOption>,
    isEggless: bool,
    hasEggOption: bool,
    stock: real,
    isActive: bool,
    images: seq<string>,
    isPreOrder: bool,
    preOrderAvailableDate: string,
    preOrderDeliveryDate: string)

  /** The form of a new product, and of the form after it is reset. */
  const EmptyForm: Form := Form("", "", "", Entered(""), [FormOption("½ kg", Entered(""))],
                                false, true, 0.0, true, [], false, "", "")

  /** A product's category as the product list delivers it: populated, or its id alone. */
  datatype CategoryRef = Populated(id: string) | IdOnly(ref: string)

  /** A product as the product list delivers it; a field the record lacks is None, and a
      missing string is "". */
  datatype ProductJson = ProductJson(
    name: string,
    description: string,
    category: CategoryRef,
    price: real,
    weightOptions: Option<seq<P.WeightOption>>,
    isEggless: Option<bool>,
    hasEggOption: Option<bool>,
    stock: real,
    isActive: Option<bool>,
    images: Option<seq<string>>,
    isPreOrder: Option<bool>,
    preOrderAvailableDate: string,
    preOrderDeliveryDate: string)

  /** `x || ''` on a price: zero shows as an empty field. */
  function PriceOrEmpty(price: real): PriceField
  {
    if price != 0.0 then Stored(price) else Entered("")
  }

  /** `date ? date.slice(0, 10) : ''`: the date part of an ISO timestamp. */
  function DatePart(iso: string): (r: string)
    ensures |r| <= 10 && |r| <= |iso| && r == iso[..|r|]
    ensures |iso| >= 10 ==> |r| == 10
    ensures |iso| < 10 ==> r == iso
  {
    iso[..if |iso| < 10 then |iso| else 10]
  }

  /** `handleEdit`: the form filled from a product. */
  function HandleEdit(p: ProductJson): Form
  {
    var loadedOptions := if p.weightOptions.Some? then p.weightOptions.value else [];
    Form(
      p.name,
      p.description,
      match p.category { case Populated(id) => id case IdOnly(r) => r },
      PriceOrEmpty(p.price),
      if |loadedOptions| > 0
      then seq(|loadedOptions|, k requires 0 <= k < |loadedOptions| =>
                 FormOption(loadedOptions[k].weight, Stored(loadedOptions[k].price)))
      else [FormOption("½ kg", PriceOrEmpty(p.price))],
      p.isEggless == Some(true),
      p.hasEggOption != Some(false),
      p.stock,
      p.isActive != Some(false),
      if p.images.Some? then p.images.value else [],
      p.isPreOrder == Some(true),
      DatePart(p.preOrderAvailableDate),
      DatePart(p.preOrderDeliveryDate))
  }

  /** Opening a product without weight options gives one '½ kg' row at the product's price;
      one with options shows them in order with their prices; active and egg-option are on
      unless the product says false. */
  lemma EditDefaults(p: ProductJson)
    ensures var f := HandleEdit(p);
            && ((p.weightOptions.None? || p.weightOptions.value == []) ==>
                  f.weightOptions == [FormOption(P.WeightLabel(P.HalfKg), PriceOrEmpty(p.price))])
            && (p.weightOptions.Some? && p.weightOptions.value != [] ==>
                  |f.weightOptions| == |p.weightOptions.value| &&
                  forall k :: 0 <= k < |f.weightOptions| ==>
                    f.weightOptions[k].weight == p.weightOptions.value[k].weight &&
                    f.weightOptions[k].price == Stored(p.weightOptions.value[k].price))
            && (f.isActive <==> p.isActive != Some(false))
            && (f.hasEggOption <==> p.hasEggOption != Some(false))
            && (p.price == 0.0 ==> f.price == Entered(""))
  {
  }

  /** Saved and new-product forms agree on the defaults a product without options gets. */
  lemma EmptyFormMatchesEditDefaults()
    ensures EmptyForm.weightOptions[0].weight == P.WeightLabel(P.HalfKg)
    ensures EmptyForm.isActive && EmptyForm.hasEggOption && !EmptyForm.isEggless
  {
  }

  // ---------------------------------------------------------------------
  // Saving

  /** The image list `handleSubmit` saves: the saved URLs, then, when files were picked, the
      URLs the multiple upload returned for them. */
  method SubmitImages<F>(images: seq<string>, files: seq<F>, uploadedUrls: seq<string>) returns (imageUrls: seq<string>)
    ensures |files| == 0 ==> imageUrls == images
    ensures |files| > 0 ==>
              |imageUrls| == |images| + |uploadedUrls| &&
              imageUrls[..|images|] == images && imageUrls[|images|..] == uploadedUrls
  {
    imageUrls := images;
    if |files| > 0 {
      imageUrls := imageUrls + uploadedUrls;
    }
  }

  /** `Number(w.price)` for each row, with the typed text's number given by `number`. */
  function SubmitOptions(options: seq<FormOption>, number: string -> real): (r: seq<P.WeightOption>)
    ensures |r| == |options|
    ensures forall k :: 0 <= k < |r| ==>
              r[k].weight == options[k].weight &&
              r[k].price == (match options[k].price case Entered(t) => number(t) case Stored(x) => x)
  {
    seq(|options|, k requires 0 <= k < |options| =>
      P.WeightOption(options[k].weight,
                     match options[k].price case Entered(t) => number(t) case Stored(x) => x))
  }

  /** A product opened for editing and saved unchanged keeps its weight options. */
  lemma EditThenSubmitKeepsOptions(p: ProductJson, number: string -> real)
    requires p.weightOptions.Some? && p.weightOptions.value != []
    ensures SubmitOptions(HandleEdit(p).weightOptions, number) == p.weightOptions.value
  {
    var r := SubmitOptions(HandleEdit(p).weightOptions, number);
    assert |r| == |p.weightOptions.value|;
    forall k | 0 <= k < |r|
      ensures r[k] == p.weightOptions.value[k]
    {
    }
  }
}
