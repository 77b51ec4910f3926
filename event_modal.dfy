/** The event dialog component (`EventModal`): its own form and errors,
    filled from the event being edited, and the callbacks it invokes. */
module EventModal {
  import opened Base
  import opened Text
  import opened FormState
  import opened EventForms

  const SaveFailed := "Failed to save event. Please try again."

  /** A callback the dialog invoked on its parent. */
  datatype Notice = Submitted(form: EventForm) | Closed

  /** The prefill effect's form: with an event, its texts or '' and the
      first 16 characters of `isoString` applied to its date ('' without a
      date); without one, five empty strings. `isoString` stands for the
      browser's `new Date(d).toISOString()`. */
  function Prefill(editing: Option<EventRecord>, isoString: string -> string): (r: EventForm)
    ensures editing.None? ==> r == EmptyForm
    ensures editing.Some? ==>
              && r.title == editing.value.title && r.description == editing.value.description
              && r.location == editing.value.location && r.image == editing.value.image
              && r.date <= isoString(editing.value.date) && |r.date| <= 16
              && (editing.value.date != "" ==>
                    |r.date| == if |isoString(editing.value.date)| < 16 then |isoString(editing.value.date)| else 16)
              && (editing.value.date == "" ==> r.date == "")
  {
    match editing
    case None => EmptyForm
    case Some(e) =>
      EventForm(e.title, e.description, e.location,
                if e.date != "" then Prefix(isoString(e.date), 16) else "", e.image)
  }

  /** Re-opening an event whose title, description and location are not
      blank fills a form that passes validation, whatever its date and
      image. */
  lemma PrefillOfCompleteEventIsValid(e: EventRecord, isoString: string -> string)
    requires !IsBlank(e.title) && !IsBlank(e.description) && !IsBlank(e.location)
    ensures FormErrors(Prefill(Some(e), isoString)) == map[]
  {
  }

  /** The message shown when `onSubmit` throws: its own, or the default when
      it is empty. */
  function SubmitError(f: Failure): (m: string)
    ensures m != ""
    ensures f.message != "" ==> m == f.message
    ensures f.message == "" ==> m == SaveFailed
  {
    if f.message != "" then f.message else SaveFailed
  }

  class EventModalForm {
    var form: EventForm
    var errors: Errors
    var notices: seq<Notice>

    constructor ()
      ensures form == EmptyForm && errors == map[] && notices == []
    {
      form := EmptyForm;
      errors := map[];
      notices := [];
    }

    /** The effect run when `editingEvent` or `isOpen` changes: the form is
        prefilled and every error cleared. */
    method OnEditingChange(editing: Option<EventRecord>, isoString: string -> string)
      modifies this
      ensures form == Prefill(editing, isoString) && errors == map[] && notices == old(notices)
    {
      form := Prefill(editing, isoString);
      errors := map[];
    }

    /** `handleInputChange`: exactly the named field takes the value, and
        only that field's error is cleared. */
    method HandleInputChange(f: EventField, value: string)
      modifies this
      ensures form == old(form).With(f, value)
      ensures errors == ClearError(old(errors), FieldName(f))
      ensures notices == old(notices)
    {
      form := form.With(f, value);
      errors := ClearError(errors, FieldName(f));
    }

    /** `validateForm`: the errors become those of the current form. */
    method ValidateForm() returns (valid: bool)
      modifies this
      ensures errors == FormErrors(form)
      ensures valid <==> !IsBlank(form.title) && !IsBlank(form.description) && !IsBlank(form.location)
      ensures form == old(form) && notices == old(notices)
    {
      var newErrors := CollectErrors(form);
      errors := newErrors;
      valid := |newErrors| == 0;
      assert valid <==> newErrors == map[];
    }

    /** `handleSubmit`, given how `onSubmit` ends: only a valid form is
        handed to `onSubmit`; if it throws, the errors become exactly the
        general message. */
    method HandleSubmit(outcome: Reply<()>)
      modifies this
      ensures form == old(form)
      ensures FormErrors(old(form)) != map[] ==> notices == old(notices) && errors == FormErrors(old(form))
      ensures FormErrors(old(form)) == map[] ==> notices == old(notices) + [Submitted(old(form))]
      ensures FormErrors(old(form)) == map[] && outcome.Ok? ==> errors == map[]
      ensures FormErrors(old(form)) == map[] && outcome.Err? ==> errors == General(SubmitError(outcome.failure))
    {
      var valid := ValidateForm();
      if !valid {
        return;
      }
      notices := notices + [Submitted(form)];
      if outcome.Err? {
        errors := General(SubmitError(outcome.failure));
      }
    }

    /** `handleClose`: the form is emptied, the errors cleared, and then the
        parent is told. */
    method HandleClose()
      modifies this
      ensures form == EmptyForm && errors == map[] && notices == old(notices) + [Closed]
    {
      form := EmptyForm;
      errors := map[];
      notices := notices + [Closed];
    }
  }
}
