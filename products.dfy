/**
  The Products page: the same table, form and delete flow as the Categories
  page, over products. The list also lives in a module-level variable that
  setData reassigns, and category names are looked up in the category list
  read from local storage once, when the module is loaded.
*/
module Products {
  import opened Outcomes
  import opened RecordList
  import ParseInt
  import Categories

  /** What the form submits once it is valid. `category` is the id of a
      category; nothing checks that such a category exists. */
  datatype ProductValues = ProductValues(title: string, description: string, price: string, category: string)

  type Product = Record<ProductValues>

  /** The form's current field values. The price has no default value, so
      it is absent until the user types one or an edit fills it in. */
  datatype ProductForm = ProductForm(title: string, description: string, price: Option<string>, category: string)

  /** The form's defaultValues, restored by reset(). */
  const DefaultForm := ProductForm("", "", None, "")

  datatype FieldError = TitleRequired | PriceRequired | PriceNotInteger | CategoryRequired

  /** The message the schema attaches to each error, shown under its field. */
  function Message(e: FieldError): string
  {
    match e
    case TitleRequired => "Mahsulot nomini kiriting avval"
    case PriceRequired => "Mahsulot narxini kiriting avval"
    case PriceNotInteger => "Narxlarni faqat son bilang yozing"
    case CategoryRequired => "Mahsulot kategoriyasini tanlang avval"
  }

  /** Each field error shows a text of its own, so the message under a field
      tells the user which rule failed. */
  lemma MessagesDistinct(e1: FieldError, e2: FieldError)
    ensures Message(e1) == Message(e2) <==> e1 == e2
  {
  }

  /** productFormSchema. Every failing field reports its error, in the
      order of the schema's fields; the description is any string. */
  function Validate(f: ProductForm): (r: Result<ProductValues, seq<FieldError>>)
    ensures r.Ok? <==>
              && |f.title| >= 1
              && f.price.Some? && ParseInt.HasIntegerPrefix(f.price.value)
              && |f.category| >= 1
    ensures r.Ok? ==> r.value == ProductValues(f.title, f.description, f.price.value, f.category)
    ensures r.Err? ==>
              && (TitleRequired in r.error <==> f.title == "")
              && (PriceRequired in r.error <==> f.price.None?)
              && (PriceNotInteger in r.error <==> f.price.Some? && !ParseInt.HasIntegerPrefix(f.price.value))
              && (CategoryRequired in r.error <==> f.category == "")
  {
    var titleErrors, priceErrors, categoryErrors :=
      TitleErrors(f.title), PriceErrors(f.price), CategoryErrors(f.category);
    var errors := titleErrors + priceErrors + categoryErrors;
    assert forall x :: x in errors <==> x in titleErrors || x in priceErrors || x in categoryErrors;
    if errors == [] then Ok(ProductValues(f.title, f.description, f.price.value, f.category))
    else Err(errors)
  }

  function TitleErrors(title: string): (e: seq<FieldError>)
    ensures e == [] || e == [TitleRequired]
    ensures e == [] <==> |title| >= 1
  {
    if title == "" then [TitleRequired] else []
  }

  /** The price must be present and parseInt(price, 10) must not be NaN. */
  function PriceErrors(price: Option<string>): (e: seq<FieldError>)
    ensures e == [] || e == [PriceRequired] || e == [PriceNotInteger]
    ensures e == [PriceRequired] <==> price.None?
    ensures e == [PriceNotInteger] <==> price.Some? && !ParseInt.HasIntegerPrefix(price.value)
  {
    match price
    case None => [PriceRequired]
    case Some(p) =>
      ParseInt.ParseIntNaNIff(p);
      if ParseInt.ParseInt(p).None? then [PriceNotInteger] else []
  }

  function CategoryErrors(category: string): (e: seq<FieldError>)
    ensures e == [] || e == [CategoryRequired]
    ensures e == [] <==> |category| >= 1
  {
    if category == "" then [CategoryRequired] else []
  }

  /** The form as the edit button fills it from a product's values when the
      dialog was closed before. */
  function FormOf(v: ProductValues): ProductForm
  {
    ProductForm(v.title, v.description, Some(v.price), v.category)
  }

  /** Editing a product and saving without a change submits its own values
      again, whenever they are values the schema admits. */
  lemma ResubmitUnchanged(v: ProductValues)
    requires v.title != "" && v.category != "" && ParseInt.HasIntegerPrefix(v.price)
    ensures Validate(FormOf(v)) == Ok(v)
  {
  }

  /** The label of the category column: the name of the first category
      whose id is the product's `category`, or undefined. */
  function CategoryLabel(categories: seq<Categories.Category>, categoryId: string): (name: Option<string>)
    ensures name.None? <==> categoryId !in Ids(categories)
    ensures name.Some? ==> exists c :: c in categories && c.id == categoryId && c.values.name == name.value
  {
    match Find(categories, categoryId)
    case None => None
    case Some(c) => Some(c.values.name)
  }

  lemma CategoryLabelIsFirstMatch(categories: seq<Categories.Category>, categoryId: string, i: nat)
    requires i < |categories| && categories[i].id == categoryId
    requires forall j :: 0 <= j < i ==> categories[j].id != categoryId
    ensures CategoryLabel(categories, categoryId) == Some(categories[i].values.name)
  {
    FindFirst(categories, categoryId, i);
  }

  /** Deleting a category leaves products that refer to it dangling: their
      label becomes undefined, and every other label stays as it was. */
  lemma CategoryLabelAfterDelete(categories: seq<Categories.Category>, deleted: string, categoryId: string)
    ensures CategoryLabel(WithoutId(categories, deleted), categoryId)
            == if categoryId == deleted then None else CategoryLabel(categories, categoryId)
  {
    FindAfterDelete(categories, deleted, categoryId);
  }

  /** A price made of decimal digits, such as "199" or "0", is accepted as
      written. */
  lemma DigitPriceAccepted(v: ProductValues)
    requires v.title != "" && v.category != ""
    requires v.price != [] && ParseInt.AllDigits(v.price)
    ensures Validate(FormOf(v)) == Ok(v)
  {
    ParseInt.ParseIntStopsAtNonDigit(v.price, []);
    assert v.price + [] == v.price;
    ParseInt.ParseIntNaNIff(v.price);
  }

  /** A price with anything but a digit after its leading digits, such as
      "12.50" or "12abc", passes the check too: parseInt reads the digits. */
  lemma TruncatedPriceAccepted(v: ProductValues, digits: string, rest: string)
    requires v.title != "" && v.category != ""
    requires digits != [] && ParseInt.AllDigits(digits) && v.price == digits + rest
    requires rest == [] || !ParseInt.IsDecimalDigit(rest[0])
    ensures Validate(FormOf(v)) == Ok(v)
  {
    ParseInt.ParseIntStopsAtNonDigit(digits, rest);
    ParseInt.ParseIntNaNIff(v.price);
  }

  /** "abc" is refused with the price error alone. */
  lemma LetterPriceRefused(f: ProductForm)
    requires f.title != "" && f.category != "" && f.price == Some("abc")
    ensures Validate(f) == Err([PriceNotInteger])
  {
    LetterPriceError(f.price);
    assert TitleErrors(f.title) == [] && CategoryErrors(f.category) == [];
    assert [] + [PriceNotInteger] + [] == [PriceNotInteger];
  }

  lemma LetterPriceError(price: Option<string>)
    requires price == Some("abc")
    ensures PriceErrors(price) == [PriceNotInteger]
  {
    ParseInt.ParseIntNaN("abc");
  }

  /** The untouched form reports every required field. */
  lemma DefaultFormRefused()
    ensures Validate(DefaultForm) == Err([TitleRequired, PriceRequired, CategoryRequired])
  {
    assert [TitleRequired] + [PriceRequired] + [CategoryRequired] == [TitleRequired, PriceRequired, CategoryRequired];
  }

  class ProductsPage {
    /** The module-level `data` list. */
    var data: seq<Product>
    /** The list under "testAppProducts" in local storage. */
    var stored: seq<Product>
    /** `categoriesData`: the categories read from storage at module load. */
    const categories: seq<Categories.Category>
    /** The rows the table is built from. */
    var tableData: seq<Product>
    /** The id of the product being edited, if any. */
    var editId: Option<string>
    /** Whether the form dialog is open. */
    var open: bool
    var form: ProductForm

    /** The module variable, storage and table agree, and a closed dialog
        holds no edit session and no stale input. */
    ghost predicate Valid()
      reads this
    {
      && data == stored
      && tableData == data
      && (!open ==> editId == None && form == DefaultForm)
    }

    /** Loading the module and mounting the page. */
    constructor (initial: seq<Product>, initialCategories: seq<Categories.Category>)
      ensures Valid()
      ensures stored == initial && data == initial && tableData == initial
      ensures categories == initialCategories
      ensures editId == None && !open && form == DefaultForm
    {
      data := initial;
      stored := initial;
      categories := initialCategories;
      tableData := initial;
      editId := None;
      open := false;
      form := DefaultForm;
    }

    /** setData: overwrite the stored list and the module variable. */
    method SetData(newData: seq<Product>)
      modifies this`stored, this`data
      ensures stored == newData && data == newData
    {
      stored := newData;
      data := newData;
    }

    /** The add button: it only opens the dialog. */
    method OpenCreate()
      requires Valid()
      modifies this`open
      ensures Valid() && open
    {
      open := true;
    }

    /** The edit button of the row with the given id: a silent no-op when
        no product has the id. Otherwise the first such product's title,
        price and category go into the form, its description only when it
        is not empty, and the dialog opens. */
    method StartEdit(id: string)
      requires Valid()
      modifies this`editId, this`form, this`open
      ensures Valid()
      ensures id !in Ids(tableData) ==>
                editId == old(editId) && form == old(form) && open == old(open)
      ensures id in Ids(tableData) ==>
                var p := Find(tableData, id).value.values;
                && editId == Some(id) && open
                && form.title == p.title && form.price == Some(p.price) && form.category == p.category
                && form.description == (if p.description != "" then p.description else old(form.description))
      ensures id in Ids(tableData) && !old(open) ==> form == FormOf(Find(tableData, id).value.values)
    {
      var found := Find(tableData, id);
      if found.Some? {
        var p := found.value.values;
        editId := Some(id);
        form := form.(title := p.title);
        form := form.(price := Some(p.price));
        form := form.(category := p.category);
        if p.description != "" {
          form := form.(description := p.description);
        }
        open := true;
      }
    }

    /** The dialog's close button. */
    method Cancel()
      requires Valid()
      modifies this`form, this`open, this`editId
      ensures Valid()
      ensures form == DefaultForm && !open && editId == None
    {
      form := DefaultForm;
      open := false;
      editId := None;
    }

    /** onSubmit with values that passed the schema: update when an edit is
        in progress, create otherwise; persist; end the session. */
    method OnSubmit(values: ProductValues, newId: string, now: Timestamp)
      requires Valid()
      modifies this
      ensures Valid()
      ensures tableData == if Truthy(old(editId))
                           then Update(old(tableData), old(editId).value, now, values)
                           else Create(old(tableData), newId, now, values)
      ensures editId == None && !open && form == DefaultForm
    {
      var newData;
      if Truthy(editId) {
        newData := Update(tableData, editId.value, now, values);
      } else {
        newData := Create(tableData, newId, now, values);
      }
      SetData(newData);
      tableData := newData;
      editId := None;
      open := false;
      form := DefaultForm;
    }

    /** The submit button: validate the form, then commit or report. */
    method Submit(newId: string, now: Timestamp) returns (errors: seq<FieldError>)
      requires Valid()
      modifies this
      ensures Valid()
      ensures errors == [] <==> Validate(old(form)).Ok?
      ensures errors != [] ==> unchanged(this) && errors == Validate(old(form)).error
      ensures errors == [] ==>
                var values := Validate(old(form)).value;
                tableData == if Truthy(old(editId))
                             then Update(old(tableData), old(editId).value, now, values)
                             else Create(old(tableData), newId, now, values)
      ensures errors == [] ==> editId == None && !open && form == DefaultForm
    {
      var outcome := Validate(form);
      match outcome
      case Err(e) =>
        errors := e;
      case Ok(values) =>
        OnSubmit(values, newId, now);
        errors := [];
    }

    /** The confirmed delete of the row with the given id. */
    method Delete(id: string)
      requires Valid()
      modifies this`stored, this`data, this`tableData
      ensures Valid()
      ensures tableData == WithoutId(old(tableData), id)
    {
      var newData := WithoutId(tableData, id);
      SetData(newData);
      tableData := newData;
    }
  }

  /** Create the category "Electronics", then delete it. The products page,
      loaded while the category existed, still shows its name; loaded again,
      it shows none. */
  method CategoryWalkthrough(catId: string, t0: Timestamp)
  {
    var categoriesPage := new Categories.CategoriesPage([]);
    categoriesPage.OpenCreate();
    categoriesPage.form := Categories.CategoryForm("Electronics");
    var errors := categoriesPage.Submit(catId, t0);
    assert errors == [];
    assert categoriesPage.stored == [Record(catId, t0, Categories.CategoryValues("Electronics"))];
    var productsPage := new ProductsPage([], categoriesPage.stored);
    assert CategoryLabel(productsPage.categories, catId) == Some("Electronics");

    categoriesPage.Delete(catId);
    assert categoriesPage.stored == [];
    assert CategoryLabel(productsPage.categories, catId) == Some("Electronics");
    var reloaded := new ProductsPage(productsPage.stored, categoriesPage.stored);
    assert CategoryLabel(reloaded.categories, catId) == None;
  }

  /** Create the product "Phone" priced "199". */
  method CreateWalkthrough(catId: string, prodId: string, t1: Timestamp)
    requires catId != ""
  {
    var productsPage := new ProductsPage([], []);
    var phone := ProductValues("Phone", "", "199", catId);
    productsPage.OpenCreate();
    productsPage.form := FormOf(phone);
    DigitPriceAccepted(phone);
    var errors := productsPage.Submit(prodId, t1);
    assert errors == [];
    assert productsPage.stored == [Record(prodId, t1, phone)];
  }

  /** Edit that product's price: "abc" is refused and leaves the dialog
      open, "0" is accepted and replaces the product. */
  method EditWalkthrough(catId: string, prodId: string, t1: Timestamp, t2: Timestamp)
    requires catId != "" && prodId != ""
  {
    var phone := ProductValues("Phone", "", "199", catId);
    var productsPage := new ProductsPage([Record(prodId, t1, phone)], []);
    assert Ids(productsPage.tableData) == [prodId];
    productsPage.StartEdit(prodId);
    assert productsPage.form == FormOf(phone);
    productsPage.form := productsPage.form.(price := Some("abc"));
    LetterPriceRefused(productsPage.form);
    var errors := productsPage.Submit(prodId, t2);
    assert errors == [PriceNotInteger];
    assert productsPage.open && productsPage.editId == Some(prodId);

    var cheap := phone.(price := "0");
    productsPage.form := FormOf(cheap);
    DigitPriceAccepted(cheap);
    errors := productsPage.Submit("unused", t2);
    assert errors == [];
    assert WithoutId([Record(prodId, t1, phone)], prodId) == [];
    assert productsPage.stored == [Record(prodId, t2, cheap)];
    assert !productsPage.open && productsPage.editId == None;
  }
}
