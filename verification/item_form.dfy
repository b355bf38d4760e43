/**
 * The modal form: local `title`/`description` fields seeded from the item
 * being edited, a busy flag around the awaited save, and the labels that
 * tell editing from creating.
 */
module ItemForm {
  import opened Wrappers
  import opened Items

  /** The `item` prop and the form's local state. */
  datatype Form = Form(item: Option<Item>, title: string, description: string, busy: bool)

  /** The form as first rendered for `item`: its fields, or blanks when
      creating; a missing field starts empty. */
  function Mount(item: Option<Item>): (f: Form)
    ensures f.item == item && !f.busy
    ensures item.None? ==> f.title == [] && f.description == []
    ensures item.Some? ==> f.title == item.value.title.GetOr([])
    ensures item.Some? ==> f.description == item.value.description.GetOr([])
  {
    match item
    case None => Form(None, [], [], false)
    case Some(it) => Form(item, it.title.GetOr([]), it.description.GetOr([]), false)
  }

  /** Typing in the title input. */
  function TypeTitle(f: Form, title: string): (g: Form)
    ensures g.title == title && g.(title := f.title) == f
  {
    f.(title := title)
  }

  /** Typing in the description textarea. */
  function TypeDescription(f: Form, description: string): (g: Form)
    ensures g.description == description && g.(description := f.description) == f
  {
    f.(description := description)
  }

  /** The submit button's `disabled` attribute. */
  predicate SubmitDisabled(f: Form) {
    f.busy
  }

  /** The browser lets a submit through only while the submit button is
      enabled and the `required` title input is non-empty. */
  predicate CanSubmit(f: Form) {
    !SubmitDisabled(f) && f.title != []
  }

  /** The result of a submit attempt: blocked by the browser, or `onSave`
      called with `payload` and awaited while the form shows `form`. */
  datatype Submission = Blocked | Pending(form: Form, payload: ItemData)

  /** `handleSubmit`, up to the `await`: sets the busy flag and hands the
      current field values to `onSave`. */
  function Submit(f: Form): (r: Submission)
    ensures r.Pending? <==> CanSubmit(f)
    ensures r.Pending? ==> r.payload == ItemData(f.title, f.description)
    ensures r.Pending? ==> r.form.busy && r.form.(busy := false) == f
  {
    if CanSubmit(f) then Pending(f.(busy := true), ItemData(f.title, f.description)) else Blocked
  }

  /** `handleSubmit` after the `await`: the busy flag is cleared when the
      promise returned by `onSave` resolves; a rejection escapes before that line and leaves it set. */
  function Settle(f: Form, how: Settlement): (g: Form)
    ensures how.Resolved? ==> !g.busy
    ensures how.Rejected? ==> g == f
    ensures g.(busy := f.busy) == f
  {
    if how.Resolved? then f.(busy := false) else f
  }

  /** The modal heading. */
  function Heading(f: Form): (heading: string) {
    if f.item.Some? then "Edit Employee" else "New Employee"
  }

  /** What the submit button shows. */
  datatype ButtonContent = BusySpinner | Label(text: string)

  function SubmitButton(f: Form): (content: ButtonContent) {
    if f.busy then BusySpinner
    else Label(if f.item.Some? then "Update Employee" else "Create Employee")
  }

  /** The heading says "edit" exactly when an item was passed in. */
  lemma EditHeadingIffItem(f: Form)
    ensures Heading(f) == "Edit Employee" <==> f.item.Some?
    ensures Heading(f) == "New Employee" <==> f.item.None?
  {
  }

  /** Heading and idle button label depend on nothing but the presence of an
      item: not on which item, nor on what has been typed. */
  lemma ModeDependsOnlyOnItem(f: Form, g: Form)
    requires !f.busy && !g.busy
    ensures (Heading(f) == Heading(g)) <==> (f.item.Some? == g.item.Some?)
    ensures (SubmitButton(f) == SubmitButton(g)) <==> (f.item.Some? == g.item.Some?)
  {
  }

  /** The spinner replaces the label exactly while the form is busy, which is
      exactly while the button is disabled. */
  lemma SpinnerIffDisabled(f: Form)
    ensures SubmitButton(f).BusySpinner? <==> SubmitDisabled(f)
  {
  }

  /** Opening the form on an item and submitting it untouched saves the
      item's own fields back. */
  lemma MountSubmitRoundTrip(item: Item)
    requires item.title.GetOr([]) != []
    ensures Submit(Mount(Some(item))).Pending?
    ensures Submit(Mount(Some(item))).payload == ItemData(item.title.GetOr([]), item.description.GetOr([]))
  {
  }

  /** Whatever was typed last is what is saved, and nothing else. */
  lemma TypedValuesAreSaved(f: Form, title: string, description: string)
    requires !f.busy && title != []
    ensures Submit(TypeDescription(TypeTitle(f, title), description)) ==
            Pending(Form(f.item, title, description, true), ItemData(title, description))
  {
  }

  /** The busy flag brackets the save: set while `onSave` is pending (so a
      second submit is blocked), cleared once it resolves, after which the
      form is exactly as before the submit. */
  lemma BusyBracketsSave(f: Form)
    requires CanSubmit(f)
    ensures SubmitDisabled(Submit(f).form)
    ensures Submit(Submit(f).form).Blocked?
    ensures Settle(Submit(f).form, Resolved) == f
    ensures SubmitDisabled(Settle(Submit(f).form, Rejected))
  {
  }
}
