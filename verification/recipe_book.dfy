/**
 * The recipe-book dialog: the two state holders (creation and edit), the
 * rule that decides whether the shared dialog is on screen, which defaults it
 * shows and whether it edits, the field checks of its form, and what a
 * submit does in each mode.
 */
module RecipeBook {
  import opened Options
  import opened KotlinStrings

  /** The values the form starts from. */
  datatype DefaultValues = DefaultValues(name: string, description: string)

  /** `RecipeBookCreationAndEditDefaultValues()`: both fields empty. */
  const EmptyDefaults := DefaultValues("", "")

  /** A recipe book as the server returns it. */
  datatype Book = Book(id: int, name: string, description: string)

  datatype EditState = EditState(shown: bool, defaults: DefaultValues, book: Option<Book>)

  datatype CreationState = CreationState(shown: bool, defaults: DefaultValues)

  const EditInitial := EditState(false, EmptyDefaults, None)
  const CreationInitial := CreationState(false, EmptyDefaults)

  /** Edit `open`: remembers the book, takes its name and description as defaults, shows the dialog. */
  function EditOpen(e: EditState, book: Book): (r: EditState)
    ensures r.shown && r.book == Some(book)
    ensures r.defaults.name == book.name && r.defaults.description == book.description
  {
    EditState(true, DefaultValues(book.name, book.description), Some(book))
  }

  /** Edit `dismiss`: hides the dialog; the book and the defaults stay. */
  function EditDismiss(e: EditState): (r: EditState)
    ensures !r.shown && r.defaults == e.defaults && r.book == e.book
  {
    e.(shown := false)
  }

  /** Creation `open(values)`: takes the given defaults and shows the dialog. */
  function CreationOpen(c: CreationState, values: DefaultValues): (r: CreationState)
    ensures r.shown && r.defaults == values
  {
    CreationState(true, values)
  }

  /** Creation `open()` with the default argument: empty name and description. */
  function CreationOpenEmpty(c: CreationState): (r: CreationState)
    ensures r.shown && r.defaults.name == "" && r.defaults.description == ""
  {
    CreationOpen(c, EmptyDefaults)
  }

  /** Creation `dismiss`: hides the dialog; the defaults stay. */
  function CreationDismiss(c: CreationState): (r: CreationState)
    ensures !r.shown && r.defaults == c.defaults
  {
    c.(shown := false)
  }

  /** What the dialog shows: the defaults it starts from and whether it is the edit dialog. */
  datatype View = View(defaults: DefaultValues, isEdit: bool)

  predicate CreationShown(creation: Option<CreationState>) {
    creation.Some? && creation.value.shown
  }

  predicate EditShown(edit: Option<EditState>) {
    edit.Some? && edit.value.shown
  }

  /**
   * The dialog for the (nullable) creation and edit holders: nothing unless
   * one of them is shown; the defaults of the creation holder when it is
   * shown, else of the edit holder; edit mode exactly when the edit holder is
   * shown.
   */
  function DialogView(creation: Option<CreationState>, edit: Option<EditState>): (v: Option<View>)
    ensures v.Some? <==> CreationShown(creation) || EditShown(edit)
    ensures v.Some? ==> (v.value.isEdit <==> EditShown(edit))
    ensures v.Some? && CreationShown(creation) ==> v.value.defaults == creation.value.defaults
    ensures v.Some? && !CreationShown(creation) ==> v.value.defaults == edit.value.defaults
  {
    if !CreationShown(creation) && !EditShown(edit) then None
    else
      var defaults :=
        if CreationShown(creation) then Some(creation.value.defaults)
        else if edit.Some? then Some(edit.value.defaults) else None;
      if defaults.None? then None
      else Some(View(defaults.value, EditShown(edit)))
  }

  /** Before either holder is opened, and without holders at all, there is no dialog. */
  lemma NothingShownAtStart()
    ensures DialogView(Some(CreationInitial), Some(EditInitial)).None?
    ensures DialogView(None, None).None?
    ensures CreationInitial.defaults == EditInitial.defaults == DefaultValues("", "")
  {
  }

  /** Both holders shown at once: the creation defaults are shown in edit mode. */
  lemma BothShownMixesModes(c: CreationState, e: EditState)
    requires c.shown && e.shown
    ensures DialogView(Some(c), Some(e)) == Some(View(c.defaults, true))
  {
  }

  /** Opening either holder alone makes the dialog show exactly what was opened, in the matching mode. */
  lemma OpenShowsDefaults(c: CreationState, e: EditState, book: Book, values: DefaultValues)
    ensures DialogView(Some(CreationOpen(c, values)), Some(EditDismiss(e))) == Some(View(values, false))
    ensures DialogView(Some(CreationDismiss(c)), Some(EditOpen(e, book)))
      == Some(View(DefaultValues(book.name, book.description), true))
    ensures DialogView(Some(CreationDismiss(c)), Some(EditDismiss(e))).None?
  {
  }

  /**
   * The form's values while the dialog is on screen. The form is built once,
   * when the dialog first appears, so its fields and its mode keep what that
   * first view showed even if the holders change while it stays on screen.
   */
  datatype Form = Form(name: string, description: string, isEdit: bool)

  function StartForm(v: View): (f: Form)
    ensures f.name == v.defaults.name && f.description == v.defaults.description && f.isEdit == v.isEdit
  {
    Form(v.defaults.name, v.defaults.description, v.isEdit)
  }

  const MaxNameLength := 128

  /** The name field's check: an error message (`message`) exactly when the name is longer than 128 UTF-16 code units (Kotlin's `length`). */
  function NameCheck(name: string, message: string): (error: Option<string>)
    ensures error.Some? <==> Utf16Length(name) > MaxNameLength
    ensures error.Some? ==> error.value == message
  {
    if Utf16Length(name) > MaxNameLength then Some(message) else None
  }

  /** The description field's check never reports an error. */
  function DescriptionCheck(description: string): (error: Option<string>)
    ensures error.None?
  {
    None
  }

  /** A call the submit issues to the server. */
  datatype Call =
    | PartialUpdate(book: Book, name: string, description: string)
    | CreateBook(name: string, description: string)

  /** What a submit leads to: the call issued, whether `onRefresh` ran, and both holders afterwards. */
  datatype Submitted = Submitted(
    call: Option<Call>,
    refreshed: bool,
    creation: Option<CreationState>,
    edit: Option<EditState>)

  /**
   * Submit. In edit mode the remembered book (if any) is updated, and then
   * the list is refreshed and the edit holder dismissed, whatever came back.
   * In create mode a book is created, and only if the server returned one is
   * the list refreshed and the creation holder dismissed. `created` is the
   * server's answer to the create call (absent on failure).
   */
  function Submit(f: Form, creation: Option<CreationState>, edit: Option<EditState>, created: Option<Book>): (r: Submitted)
    ensures f.isEdit ==> r.refreshed && r.creation == creation
    ensures f.isEdit && edit.Some? ==> r.edit == Some(EditDismiss(edit.value))
    ensures f.isEdit ==> (r.call.Some? <==> edit.Some? && edit.value.book.Some?)
    ensures f.isEdit && r.call.Some? ==> r.call.value == PartialUpdate(edit.value.book.value, f.name, f.description)
    ensures !f.isEdit ==> r.call == Some(CreateBook(f.name, f.description)) && r.edit == edit
    ensures !f.isEdit ==> (r.refreshed <==> created.Some?)
    ensures !f.isEdit && created.Some? && creation.Some? ==> r.creation == Some(CreationDismiss(creation.value))
    ensures !f.isEdit && created.None? ==> r.creation == creation
  {
    if f.isEdit then
      var call := if edit.Some? && edit.value.book.Some?
        then Some(PartialUpdate(edit.value.book.value, f.name, f.description)) else None;
      var edit' := if edit.Some? then Some(EditDismiss(edit.value)) else None;
      Submitted(call, true, creation, edit')
    else
      var call := Some(CreateBook(f.name, f.description));
      if created.Some? then
        var creation' := if creation.Some? then Some(CreationDismiss(creation.value)) else None;
        Submitted(call, true, creation', edit)
      else Submitted(call, false, creation, edit)
  }

  /** The edit outcome does not matter: any two answers give the same submit. */
  lemma EditIgnoresOutcome(f: Form, c: Option<CreationState>, e: Option<EditState>, a: Option<Book>, b: Option<Book>)
    requires f.isEdit
    ensures Submit(f, c, e, a) == Submit(f, c, e, b)
  {
  }

  /**
   * After a successful create, or any edit submit, of a dialog that only one
   * holder had open, the dialog is gone; a failed create leaves it open.
   */
  lemma SubmitClosesDialog(c: CreationState, e: EditState, created: Option<Book>)
    requires c.shown != e.shown
    ensures var v := DialogView(Some(c), Some(e)).value;
      var r := Submit(StartForm(v), Some(c), Some(e), created);
      DialogView(r.creation, r.edit).None? <==> (v.isEdit || created.Some?)
  {
  }

  /**
   * With both holders shown, an edit submit closes only the edit holder: the
   * dialog stays on screen and its view, and so its title, switches to create
   * mode.
   */
  lemma EditSubmitLeavesCreationOpen(c: CreationState, e: EditState, created: Option<Book>)
    requires c.shown && e.shown
    ensures var r := Submit(StartForm(View(c.defaults, true)), Some(c), Some(e), created);
      DialogView(r.creation, r.edit) == Some(View(c.defaults, false))
  {
  }

  /**
   * The form on screen is still the one built for the first view, in edit
   * mode. So with both holders shown, every later submit updates the edit
   * holder's book again with the creation defaults; no book is ever created
   * and the dialog never closes through submit.
   */
  lemma RememberedFormKeepsEditing(c: CreationState, e: EditState, bk: Book, created1: Option<Book>, created2: Option<Book>)
    requires c.shown && e.shown && e.book == Some(bk)
    ensures var f := StartForm(DialogView(Some(c), Some(e)).value);
      var r1 := Submit(f, Some(c), Some(e), created1);
      var r2 := Submit(f, r1.creation, r1.edit, created2);
      && r1.call == Some(PartialUpdate(bk, c.defaults.name, c.defaults.description))
      && r2.call == Some(PartialUpdate(bk, c.defaults.name, c.defaults.description))
      && DialogView(r2.creation, r2.edit) == Some(View(c.defaults, false))
  {
  }

  /**
   * The field checks of a freshly seeded form: a name error exactly when the
   * defaults' name is longer than 128 code units, never a description error.
   * Opening the edit dialog for a book therefore starts without errors
   * exactly when the book's name fits, and the empty creation dialog always
   * starts without errors.
   */
  lemma SeededFormChecks(v: View, c: CreationState, e: EditState, book: Book, message: string)
    ensures NameCheck(StartForm(v).name, message).None? <==> Utf16Length(v.defaults.name) <= MaxNameLength
    ensures DescriptionCheck(StartForm(v).description).None?
    ensures var w := DialogView(Some(CreationDismiss(c)), Some(EditOpen(e, book))).value;
      NameCheck(StartForm(w).name, message).None? <==> Utf16Length(book.name) <= MaxNameLength
    ensures var w := DialogView(Some(CreationOpenEmpty(c)), Some(EditDismiss(e))).value;
      NameCheck(StartForm(w).name, message).None? && !StartForm(w).isEdit
  {
    OpenShowsDefaults(c, e, book, EmptyDefaults);
  }

  /** The dialog's own dismiss (back press, outside click) hides both holders. */
  function DismissBoth(creation: Option<CreationState>, edit: Option<EditState>): (r: (Option<CreationState>, Option<EditState>))
    ensures DialogView(r.0, r.1).None?
    ensures creation.Some? ==> r.0 == Some(CreationDismiss(creation.value))
    ensures edit.Some? ==> r.1 == Some(EditDismiss(edit.value))
  {
    (if creation.Some? then Some(CreationDismiss(creation.value)) else None,
     if edit.Some? then Some(EditDismiss(edit.value)) else None)
  }
}
