/**
  The Categories page: a table of categories with a modal form to create
  or edit one, and a confirmed delete per row. The list the table shows is
  mirrored to local storage under "testAppCategories" on every change.
*/
module Categories {
  import opened Outcomes
  import opened RecordList

  /** What the form submits once it is valid. */
  datatype CategoryValues = CategoryValues(name: string)

  type Category = Record<CategoryValues>

  /** The form's current field values. */
  datatype CategoryForm = CategoryForm(name: string)

  /** The form's defaultValues, restored by reset(). */
  const DefaultForm := CategoryForm("")

  datatype FieldError = NameRequired

  /** The message the schema attaches to the error, shown under the field. */
  function Message(e: FieldError): string
  {
    match e
    case NameRequired => "Kategoriya nomini kiriting avval"
  }

  /** categoryFormSchema: the name must be at least one character long. */
  function Validate(f: CategoryForm): (r: Result<CategoryValues, seq<FieldError>>)
    ensures r.Ok? <==> |f.name| >= 1
    ensures r.Ok? ==> r.value.name == f.name
    ensures r.Err? ==> r.error == [NameRequired]
  {
    if f.name == "" then Err([NameRequired]) else Ok(CategoryValues(f.name))
  }

  /** The form as the edit button fills it from a category's values. */
  function FormOf(v: CategoryValues): CategoryForm
  {
    CategoryForm(v.name)
  }

  /** Editing a category and saving without a change submits its own values
      again, whenever its name is one the schema admits. */
  lemma ResubmitUnchanged(v: CategoryValues)
    ensures Validate(FormOf(v)) == (if v.name == "" then Err([NameRequired]) else Ok(v))
  {
  }

  class CategoriesPage {
    /** The list under "testAppCategories" in local storage. */
    var stored: seq<Category>
    /** The rows the table is built from. */
    var tableData: seq<Category>
    /** The id of the category being edited, if any. */
    var editId: Option<string>
    /** Whether the form dialog is open. */
    var open: bool
    var form: CategoryForm

    /** Storage and table agree, and a closed dialog holds no edit session
        and no stale input. */
    ghost predicate Valid()
      reads this
    {
      && stored == tableData
      && (!open ==> editId == None && form == DefaultForm)
    }

    /** Mounting the page with the list the storage hook read. */
    constructor (initial: seq<Category>)
      ensures Valid()
      ensures stored == initial && tableData == initial
      ensures editId == None && !open && form == DefaultForm
    {
      stored := initial;
      tableData := initial;
      editId := None;
      open := false;
      form := DefaultForm;
    }

    /** setData: overwrite the stored list. */
    method SetData(newData: seq<Category>)
      modifies this`stored
      ensures stored == newData
    {
      stored := newData;
    }

    /** The add button: it only opens the dialog. */
    method OpenCreate()
      requires Valid()
      modifies this`open
      ensures Valid() && open
    {
      open := true;
    }

    /** The edit button of the row with the given id: a silent no-op when
        no category has the id, otherwise the first such category is loaded
        into the form and the dialog opens. */
    method StartEdit(id: string)
      requires Valid()
      modifies this`editId, this`form, this`open
      ensures Valid()
      ensures id !in Ids(tableData) ==>
                editId == old(editId) && form == old(form) && open == old(open)
      ensures id in Ids(tableData) ==>
                editId == Some(id) && open && form == FormOf(Find(tableData, id).value.values)
    {
      var found := Find(tableData, id);
      if found.Some? {
        editId := Some(id);
        form := form.(name := found.value.values.name);
        open := true;
      }
    }

    /** The dialog's close button. */
    method Cancel()
      requires Valid()
      modifies this`form, this`open, this`editId
      ensures Valid()
      ensures form == DefaultForm && !open && editId == None
    {
      form := DefaultForm;
      open := false;
      editId := None;
    }

    /** onSubmit with values that passed the schema: update when an edit is
        in progress, create otherwise; persist; end the session. */
    method OnSubmit(values: CategoryValues, newId: string, now: Timestamp)
      requires Valid()
      modifies this
      ensures Valid()
      ensures tableData == if Truthy(old(editId))
                           then Update(old(tableData), old(editId).value, now, values)
                           else Create(old(tableData), newId, now, values)
      ensures editId == None && !open && form == DefaultForm
    {
      var newData;
      if Truthy(editId) {
        newData := Update(tableData, editId.value, now, values);
      } else {
        newData := Create(tableData, newId, now, values);
      }
      SetData(newData);
      tableData := newData;
      editId := None;
      open := false;
      form := DefaultForm;
    }

    /** The submit button: validate the form, then commit or report. */
    method Submit(newId: string, now: Timestamp) returns (errors: seq<FieldError>)
      requires Valid()
      modifies this
      ensures Valid()
      ensures errors == [] <==> old(form.name) != ""
      ensures errors != [] ==> errors == Validate(old(form)).error && unchanged(this)
      ensures errors == [] ==>
                tableData == if Truthy(old(editId))
                             then Update(old(tableData), old(editId).value, now, CategoryValues(old(form.name)))
                             else Create(old(tableData), newId, now, CategoryValues(old(form.name)))
      ensures errors == [] ==> editId == None && !open && form == DefaultForm
    {
      var outcome := Validate(form);
      match outcome
      case Err(e) =>
        errors := e;
      case Ok(values) =>
        OnSubmit(values, newId, now);
        errors := [];
    }

    /** The confirmed delete of the row with the given id. Products that
        refer to the category are not touched. */
    method Delete(id: string)
      requires Valid()
      modifies this`stored, this`tableData
      ensures Valid()
      ensures tableData == WithoutId(old(tableData), id)
    {
      var newData := WithoutId(tableData, id);
      SetData(newData);
      tableData := newData;
    }
  }
}
