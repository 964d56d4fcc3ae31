/** The product list of the admin panel (src/pages/List.jsx): the price shown per product,
    the search box, and the edit form with its ten image slots, the upload fields it sends
    and the local update of the list once the server accepts the edit. */
module Products {
  import opened Seqs
  import opened Text
  import opened OrderModel
  import opened Pricing

  /** A catalogue product; `discount` is `None` when the product has none. */
  datatype Product = Product(
    id: string,
    name: string,
    description: string,
    category: string,
    subCategory: string,
    price: int,
    discount: Option<int>,
    image: seq<string>)

  // ---------------------------------------------------------------------------
  // Prices
  // ---------------------------------------------------------------------------

  /** The discount input: `Math.min(100, Math.max(0, valueAsNumber || 0))`; an empty or
      unreadable entry (`None`) counts as 0. */
  function ClampDiscount(input: Option<int>): (r: int)
    ensures 0 <= r <= 100
    ensures input.None? ==> r == 0
    ensures input.Some? && 0 <= input.value <= 100 ==> r == input.value
    ensures input.Some? && input.value < 0 ==> r == 0
    ensures input.Some? && input.value > 100 ==> r == 100
  {
    var v := if input.Some? then input.value else 0;
    var atLeastZero := if v > 0 then v else 0;
    if atLeastZero < 100 then atLeastZero else 100
  }

  /** The price shown in the product row: the rounded discounted price when the product has a
      positive discount and a non-zero price, otherwise the list price. */
  function DisplayPrice(p: Product): int
  {
    if p.discount.Some? && p.discount.value > 0 && p.price != 0 then UnitPrice(p.price, p.discount.value)
    else p.price
  }

  /** The product row agrees with the per-unit price orders are charged, whenever the
      discount is absent or non-negative; for a well-formed product it lies in [0, price]. */
  lemma DisplayPriceIsUnitPrice(p: Product)
    requires p.discount.None? || p.discount.value >= 0
    ensures var d := if p.discount.Some? then p.discount.value else 0;
            DisplayPrice(p) == UnitPrice(p.price, d)
            && (p.price >= 0 && d <= 100 ==> 0 <= DisplayPrice(p) <= p.price)
  {
    var d := if p.discount.Some? then p.discount.value else 0;
    if p.price >= 0 && d <= 100 {
      UnitPriceBounds(p.price, d);
    }
  }

  /** A negative stored discount is shown as the list price in the product row, while the
      order card, which tests the discount for being non-zero, charges more than list. */
  lemma NegativeDiscountShownAsListPrice()
    ensures var p := Product("", "", "", "", "", 100, Some(-10), []);
            DisplayPrice(p) == 100 && UnitPrice(100, -10) == 110
  {
  }

  // ---------------------------------------------------------------------------
  // Search
  // ---------------------------------------------------------------------------

  /** The product search test, on lower-cased name, category and sub-category. */
  predicate MatchesQuery(p: Product, query: string)
  {
    var q := Lower(query);
    Contains(Lower(p.name), q) || Contains(Lower(p.category), q) || Contains(Lower(p.subCategory), q)
  }

  /** The search effect: an empty query shows the whole list (a query of spaces is not empty
      and is matched literally); otherwise the matching products, in list order. */
  function ProductSearch(list: seq<Product>, query: string): (r: seq<Product>)
    ensures query == "" ==> r == list
    ensures Subsequence(r, list)
    ensures forall i :: 0 <= i < |r| ==> r[i] in list && (query == "" || MatchesQuery(r[i], query))
    ensures forall i :: 0 <= i < |list| && (query == "" || MatchesQuery(list[i], query)) ==> list[i] in r
  {
    if query == "" then
      SubsequenceReflexive(list);
      list
    else
      var p := item => MatchesQuery(item, query);
      FilterIsSubsequence(list, p);
      FilterMembers(list, p);
      Filter(list, p)
  }

  // ---------------------------------------------------------------------------
  // Image slots
  // ---------------------------------------------------------------------------

  /** A file chosen in the browser. */
  datatype FileRef = FileRef(name: string)

  /** A filled slot: the picture's URL and, when newly chosen, the file to upload. */
  datatype Slot = Slot(url: string, file: Option<FileRef>)

  const SlotCount: nat := 10

  /** `handleEditClick`'s slots: slot `i` shows the product's `i`-th saved image when there is
      a non-empty one, with no file to upload, and is empty otherwise. */
  function EditSlots(image: seq<string>): (r: seq<Option<Slot>>)
    ensures |r| == SlotCount
    ensures forall i :: 0 <= i < SlotCount ==> (r[i].Some? <==> i < |image| && image[i] != "")
    ensures forall i :: 0 <= i < SlotCount && r[i].Some? ==> r[i].value == Slot(image[i], None)
  {
    seq(SlotCount, i requires 0 <= i < SlotCount =>
      if i < |image| && image[i] != "" then Some(Slot(image[i], None)) else None)
  }

  /** One multipart field of the update request. */
  datatype FieldValue = Upload(file: FileRef) | Flag(text: string)
  datatype FormField = FormField(name: string, value: FieldValue)

  /** Slot `k` is sent as `image{k + 1}` (a new file) or `removeImage{k + 1}` (cleared). */
  function ImageFieldName(k: nat): string { "image" + Decimal(k + 1) }
  function RemoveFieldName(k: nat): string { "removeImage" + Decimal(k + 1) }

  /** What slot `k` contributes: its new file, a removal mark, or nothing for a slot that
      still holds its saved image. */
  function SlotField(k: nat, slot: Option<Slot>): Option<FormField>
  {
    match slot
    case None => Some(FormField(RemoveFieldName(k), Flag("true")))
    case Some(s) => if s.file.Some? then Some(FormField(ImageFieldName(k), Upload(s.file.value))) else None
  }

  function OptionToSeq(f: Option<FormField>): seq<FormField>
  {
    if f.Some? then [f.value] else []
  }

  /** The image fields of the request, slot by slot. */
  function ImageFieldsOf(slots: seq<Option<Slot>>): seq<FormField>
  {
    if slots == [] then []
    else ImageFieldsOf(slots[..|slots| - 1]) + OptionToSeq(SlotField(|slots| - 1, slots[|slots| - 1]))
  }

  /** The `forEach` over the slots in `handleUpdate`, appending to the form. */
  method ImageFields(slots: seq<Option<Slot>>) returns (fields: seq<FormField>)
    ensures fields == ImageFieldsOf(slots)
  {
    fields := [];
    for idx := 0 to |slots|
      invariant fields == ImageFieldsOf(slots[..idx])
    {
      assert slots[..idx + 1][..idx] == slots[..idx];
      var imgObj := slots[idx];
      if imgObj.Some? && imgObj.value.file.Some? {
        fields := fields + [FormField("image" + Decimal(idx + 1), Upload(imgObj.value.file.value))];
      } else if imgObj.None? {
        fields := fields + [FormField("removeImage" + Decimal(idx + 1), Flag("true"))];
      }
    }
    assert slots[..|slots|] == slots;
  }

  /** Field names of different slots, and of the two kinds, never coincide. */
  lemma FieldNamesDistinct(j: nat, k: nat)
    ensures ImageFieldName(j) != RemoveFieldName(k)
    ensures ImageFieldName(j) == ImageFieldName(k) ==> j == k
    ensures RemoveFieldName(j) == RemoveFieldName(k) ==> j == k
  {
    UploadIsNotRemoval(j, k);
    if ImageFieldName(j) == ImageFieldName(k) {
      NumberedNameInjective("image", j + 1, k + 1);
    }
    if RemoveFieldName(j) == RemoveFieldName(k) {
      NumberedNameInjective("removeImage", j + 1, k + 1);
    }
  }

  /** An upload field and a removal field differ in their first letter. */
  lemma UploadIsNotRemoval(j: nat, k: nat)
    ensures ImageFieldName(j) != RemoveFieldName(k)
  {
    assert ImageFieldName(j)[0] == 'i';
    assert RemoveFieldName(k)[0] == 'r';
  }

  /** A fixed prefix followed by a number names at most one number. */
  lemma NumberedNameInjective(prefix: string, m: nat, n: nat)
    requires prefix + Decimal(m) == prefix + Decimal(n)
    ensures m == n
  {
    PrefixCancel(prefix, Decimal(m), Decimal(n));
    DecimalInjective(m, n);
  }

  /** Every field comes from some slot, and every slot that contributes a field has it sent. */
  lemma {:induction false} ImageFieldsOrigin(slots: seq<Option<Slot>>)
    ensures forall i :: 0 <= i < |ImageFieldsOf(slots)| ==>
              exists k :: 0 <= k < |slots| && SlotField(k, slots[k]) == Some(ImageFieldsOf(slots)[i])
    ensures forall k :: 0 <= k < |slots| && SlotField(k, slots[k]).Some? ==>
              SlotField(k, slots[k]).value in ImageFieldsOf(slots)
  {
    if slots != [] {
      var init := slots[..|slots| - 1];
      var n := |slots| - 1;
      ImageFieldsOrigin(init);
      var prev := ImageFieldsOf(init);
      var r := ImageFieldsOf(slots);
      forall i | 0 <= i < |r|
        ensures exists k :: 0 <= k < |slots| && SlotField(k, slots[k]) == Some(r[i])
      {
        if i < |prev| {
          assert r[i] == prev[i];
          var k :| 0 <= k < |init| && SlotField(k, init[k]) == Some(prev[i]);
          assert slots[k] == init[k];
        } else {
          assert SlotField(n, slots[n]) == Some(r[i]);
        }
      }
      forall k | 0 <= k < |slots| && SlotField(k, slots[k]).Some?
        ensures SlotField(k, slots[k]).value in r
      {
        if k < n {
          assert slots[k] == init[k];
          assert SlotField(k, init[k]).value in prev;
        } else {
          assert r[|r| - 1] == SlotField(k, slots[k]).value;
        }
      }
    } else {
      assert ImageFieldsOf(slots) == [];
    }
  }

  /** The request has a field with this name. */
  predicate HasField(fields: seq<FormField>, name: string)
  {
    exists i :: 0 <= i < |fields| && fields[i].name == name
  }

  /** Slot `k` is sent as a new image exactly when it holds a chosen file, and as a removal
      exactly when it is empty; a slot keeping its saved image sends nothing. */
  lemma ImageFieldsSpec(slots: seq<Option<Slot>>, k: nat)
    requires k < |slots|
    ensures HasField(ImageFieldsOf(slots), ImageFieldName(k)) <==> slots[k].Some? && slots[k].value.file.Some?
    ensures HasField(ImageFieldsOf(slots), RemoveFieldName(k)) <==> slots[k].None?
  {
    ImageFieldsOrigin(slots);
    var r := ImageFieldsOf(slots);
    if HasField(r, ImageFieldName(k)) {
      var k' := FieldSlot(slots, ImageFieldName(k));
      FieldNamesDistinct(k', k);
      FieldNamesDistinct(k, k');
    }
    if HasField(r, RemoveFieldName(k)) {
      var k' := FieldSlot(slots, RemoveFieldName(k));
      FieldNamesDistinct(k', k);
      FieldNamesDistinct(k, k');
    }
    if SlotField(k, slots[k]).Some? {
      assert r[IndexOf(r, SlotField(k, slots[k]).value)].name == SlotField(k, slots[k]).value.name;
    }
  }

  /** A position holding `f` in `fields`. */
  function IndexOf(fields: seq<FormField>, f: FormField): (i: nat)
    requires f in fields
    ensures i < |fields| && fields[i] == f
  {
    if fields[0] == f then 0 else 1 + IndexOf(fields[1..], f)
  }

  /** The slot a named field of the request was produced by. */
  lemma FieldSlot(slots: seq<Option<Slot>>, name: string) returns (k: nat)
    requires HasField(ImageFieldsOf(slots), name)
    ensures k < |slots| && SlotField(k, slots[k]).Some? && SlotField(k, slots[k]).value.name == name
  {
    ImageFieldsOrigin(slots);
    var r := ImageFieldsOf(slots);
    var i :| 0 <= i < |r| && r[i].name == name;
    k :| 0 <= k < |slots| && SlotField(k, slots[k]) == Some(r[i]);
  }

  /** Fields contributed by two different slots have different names. */
  lemma SlotFieldNamesDiffer(j: nat, a: Option<Slot>, k: nat, b: Option<Slot>)
    requires j != k && SlotField(j, a).Some? && SlotField(k, b).Some?
    ensures SlotField(j, a).value.name != SlotField(k, b).value.name
  {
    FieldNamesDistinct(j, k);
    FieldNamesDistinct(k, j);
  }

  /** No slot contributes more than one field, and no field name repeats. */
  lemma {:induction false} ImageFieldsUnique(slots: seq<Option<Slot>>)
    ensures |ImageFieldsOf(slots)| <= |slots|
    ensures forall i, j :: 0 <= i < j < |ImageFieldsOf(slots)| ==>
              ImageFieldsOf(slots)[i].name != ImageFieldsOf(slots)[j].name
  {
    if slots != [] {
      var init := slots[..|slots| - 1];
      var n := |slots| - 1;
      ImageFieldsUnique(init);
      ImageFieldsOrigin(init);
      var prev := ImageFieldsOf(init);
      var r := ImageFieldsOf(slots);
      forall i, j | 0 <= i < j < |r| ensures r[i].name != r[j].name {
        if j >= |prev| {
          assert r[i] == prev[i];
          var k :| 0 <= k < |init| && SlotField(k, init[k]) == Some(prev[i]);
          assert SlotField(n, slots[n]) == Some(r[j]);
          SlotFieldNamesDiffer(k, init[k], n, slots[n]);
        } else {
          assert r[i] == prev[i] && r[j] == prev[j];
        }
      }
    }
  }

  /** Saving a freshly opened editor uploads nothing and asks to clear exactly the slots the
      product has no image for. */
  lemma UnchangedEditSendsOnlyRemovals(image: seq<string>, k: nat)
    requires k < SlotCount
    ensures !HasField(ImageFieldsOf(EditSlots(image)), ImageFieldName(k))
    ensures HasField(ImageFieldsOf(EditSlots(image)), RemoveFieldName(k)) <==> !(k < |image| && image[k] != "")
  {
    ImageFieldsSpec(EditSlots(image), k);
  }

  // ---------------------------------------------------------------------------
  // Variant image preview
  // ---------------------------------------------------------------------------

  /** A variant's `imageIndex`: unset (empty), a string `parseInt` reads as `n`, or one it
      cannot read. */
  datatype ImageIndex = Unset | Parsed(n: int) | Unparsable

  /** The slot the preview looks at; `NoSlot` stands for the NaN index an unreadable value
      produces, which finds no slot. */
  datatype PreviewSlot = At(slot: nat) | NoSlot

  /** `imageIndex ? Math.max(0, parseInt(imageIndex, 10) - 1) : 0`. */
  function PreviewSlotOf(index: ImageIndex): (r: PreviewSlot)
    ensures index.Unset? ==> r == At(0)
    ensures index.Parsed? ==> r.At? && r.slot + 1 >= index.n && (index.n >= 1 ==> r.slot == index.n - 1)
    ensures index.Parsed? && index.n <= 1 ==> r == At(0)
    ensures index.Unparsable? ==> r == NoSlot
  {
    match index
    case Unset => At(0)
    case Parsed(n) => At(if n - 1 > 0 then n - 1 else 0)
    case Unparsable => NoSlot
  }

  /** The placeholder choices 1 to 10 each select their own slot among the ten. */
  lemma PlaceholderChoicesSelectOwnSlot(n: int)
    requires 1 <= n <= SlotCount
    ensures PreviewSlotOf(Parsed(n)) == At(n - 1) && n - 1 < SlotCount
  {
  }

  // ---------------------------------------------------------------------------
  // The local list update after a successful edit
  // ---------------------------------------------------------------------------

  /** The values the edit form submits. */
  datatype EditForm = EditForm(name: string, description: string, price: int, discount: int,
                               category: string, subCategory: string)

  /** The edited product: the form's values, the images the server returned when it returned
      a list of them, the product's own images otherwise. */
  function Edited(item: Product, form: EditForm, returnedImages: Option<seq<string>>): (r: Product)
    ensures r.id == item.id
  {
    Product(item.id, form.name, form.description, form.category, form.subCategory, form.price,
            Some(form.discount),
            if returnedImages.Some? then returnedImages.value else item.image)
  }

  /** `setList(prev => prev.map(...))`: every product with the edited id is replaced by its
      edited version; every other product, the length and the order stay as they were. */
  function UpdateById(list: seq<Product>, id: string, form: EditForm, returnedImages: Option<seq<string>>)
    : (r: seq<Product>)
    ensures |r| == |list|
    ensures forall i :: 0 <= i < |list| ==> r[i].id == list[i].id
    ensures forall i :: 0 <= i < |list| && list[i].id != id ==> r[i] == list[i]
    ensures forall i :: 0 <= i < |list| && list[i].id == id ==> r[i] == Edited(list[i], form, returnedImages)
  {
    seq(|list|, i requires 0 <= i < |list| =>
      if list[i].id == id then Edited(list[i], form, returnedImages) else list[i])
  }

  /** Applying the same accepted edit twice is the same as applying it once. */
  lemma UpdateByIdIdempotent(list: seq<Product>, id: string, form: EditForm, returnedImages: Option<seq<string>>)
    ensures var once := UpdateById(list, id, form, returnedImages);
            UpdateById(once, id, form, returnedImages) == once
  {
  }

  /** An id no product carries leaves the list untouched. */
  lemma UpdateUnknownIdIsIdentity(list: seq<Product>, id: string, form: EditForm, returnedImages: Option<seq<string>>)
    requires forall i :: 0 <= i < |list| ==> list[i].id != id
    ensures UpdateById(list, id, form, returnedImages) == list
  {
  }

  // ---------------------------------------------------------------------------
  // The edit form's state
  // ---------------------------------------------------------------------------

  /** The product-list page state that the edit handlers change. */
  class ProductEditor {
    var list: seq<Product>
    var selected: Option<Product>
    var name: string
    var description: string
    var price: int
    var discount: int
    var category: string
    var subCategory: string
    var images: seq<Option<Slot>>

    /** The form always holds exactly ten image slots. */
    predicate Valid()
      reads this
    {
      |images| == SlotCount
    }

    /** The empty form: ten empty slots and no product selected. */
    constructor()
      ensures Valid()
      ensures list == [] && selected == None && |images| == SlotCount
      ensures forall i :: 0 <= i < SlotCount ==> images[i] == None
      ensures name == "" && description == "" && price == 0 && discount == 0
      ensures category == "" && subCategory == ""
    {
      list := [];
      selected := None;
      name, description, price, discount, category, subCategory := "", "", 0, 0, "", "";
      images := seq(SlotCount, _ => None);
    }

    /** `fetchList`: the fetched products become the list. */
    method SetList(products: seq<Product>)
      requires Valid()
      modifies this
      ensures Valid()
      ensures list == products
      ensures selected == old(selected) && images == old(images)
      ensures name == old(name) && description == old(description) && price == old(price)
      ensures discount == old(discount) && category == old(category) && subCategory == old(subCategory)
    {
      list := products;
    }

    /** `handleEditClick`: the form is loaded from the product, a missing discount as 0. */
    method EditClick(p: Product)
      modifies this
      ensures Valid()
      ensures selected == Some(p) && list == old(list)
      ensures name == p.name && description == p.description && price == p.price
      ensures discount == (if p.discount.Some? then p.discount.value else 0)
      ensures category == p.category && subCategory == p.subCategory
      ensures images == EditSlots(p.image)
    {
      selected := Some(p);
      name := p.name;
      description := p.description;
      price := p.price;
      discount := if p.discount.Some? then p.discount.value else 0;
      category := p.category;
      subCategory := p.subCategory;
      images := EditSlots(p.image);
    }

    /** The discount input, clamped to [0, 100]. */
    method SetDiscount(input: Option<int>)
      requires Valid()
      modifies this
      ensures Valid()
      ensures discount == ClampDiscount(input) && 0 <= discount <= 100
      ensures list == old(list) && selected == old(selected) && images == old(images)
      ensures name == old(name) && description == old(description) && price == old(price)
      ensures category == old(category) && subCategory == old(subCategory)
    {
      discount := ClampDiscount(input);
    }

    /** `handleImageChange`: slot `idx` takes the chosen file and its object URL. */
    method ChangeImage(idx: nat, file: FileRef, url: string)
      requires Valid() && idx < SlotCount
      modifies this
      ensures Valid()
      ensures images[idx] == Some(Slot(url, Some(file)))
      ensures forall j :: 0 <= j < |images| && j != idx ==> images[j] == old(images)[j]
      ensures list == old(list) && selected == old(selected) && discount == old(discount)
      ensures name == old(name) && description == old(description) && price == old(price)
      ensures category == old(category) && subCategory == old(subCategory)
    {
      var newImages := images;
      newImages := newImages[idx := Some(Slot(url, Some(file)))];
      images := newImages;
    }

    /** `handleImageRemove`: slot `idx` is emptied. */
    method RemoveImage(idx: nat)
      requires Valid() && idx < SlotCount
      modifies this
      ensures Valid()
      ensures images[idx] == None
      ensures forall j :: 0 <= j < |images| && j != idx ==> images[j] == old(images)[j]
      ensures list == old(list) && selected == old(selected) && discount == old(discount)
      ensures name == old(name) && description == old(description) && price == old(price)
      ensures category == old(category) && subCategory == old(subCategory)
    {
      var newImages := images;
      newImages := newImages[idx := None];
      images := newImages;
    }

    /** The image part of the update request for the current form. */
    method UpdateRequest() returns (fields: seq<FormField>)
      ensures fields == ImageFieldsOf(images)
    {
      fields := ImageFields(images);
    }

    /** A successful update: the selected product is replaced in the list by its edited
        version; the rest of the list is untouched. */
    method ApplyUpdate(returnedImages: Option<seq<string>>)
      requires Valid() && selected.Some?
      modifies this
      ensures Valid()
      ensures selected == old(selected) && images == old(images)
      ensures list == UpdateById(old(list), selected.value.id,
                                 EditForm(name, description, price, discount, category, subCategory),
                                 returnedImages)
      ensures name == old(name) && description == old(description) && price == old(price)
      ensures discount == old(discount) && category == old(category) && subCategory == old(subCategory)
    {
      list := UpdateById(list, selected.value.id,
                         EditForm(name, description, price, discount, category, subCategory), returnedImages);
    }
  }

  /** Changing a slot's file and then saving uploads that slot and no longer asks to clear
      it; the other slots' fields are as before. */
  lemma ChangedSlotIsUploaded(slots: seq<Option<Slot>>, idx: nat, file: FileRef, url: string, k: nat)
    requires idx < |slots| && k < |slots|
    ensures var after := slots[idx := Some(Slot(url, Some(file)))];
            && (k == idx ==> HasField(ImageFieldsOf(after), ImageFieldName(k))
                             && !HasField(ImageFieldsOf(after), RemoveFieldName(k)))
            && (k != idx ==> (HasField(ImageFieldsOf(after), ImageFieldName(k)) == HasField(ImageFieldsOf(slots), ImageFieldName(k))
                             && HasField(ImageFieldsOf(after), RemoveFieldName(k)) == HasField(ImageFieldsOf(slots), RemoveFieldName(k))))
  {
    var after := slots[idx := Some(Slot(url, Some(file)))];
    ImageFieldsSpec(after, k);
    ImageFieldsSpec(slots, k);
  }

  /** Removing a slot's image and then saving asks to clear that slot. */
  lemma RemovedSlotIsCleared(slots: seq<Option<Slot>>, idx: nat)
    requires idx < |slots|
    ensures HasField(ImageFieldsOf(slots[idx := None]), RemoveFieldName(idx))
    ensures !HasField(ImageFieldsOf(slots[idx := None]), ImageFieldName(idx))
  {
    ImageFieldsSpec(slots[idx := None], idx);
  }
}
