/** The events page (`Events`): the list of events, the inline create/edit
    dialog with its form and errors, and the event being edited. */
module Events {
  import opened Base
  import opened Text
  import opened Lists
  import opened FormState
  import opened EventForms

  /** The request a valid submit sends: PUT of the form to the edited
      event's id, or POST of the form. */
  datatype EventRequest = Update(id: Id, body: EventForm) | Create(body: EventForm)

  const SaveFailed := "Failed to save event. Please try again."

  /** `handleEdit`'s form: the record's texts, the date cut before its first
      'T' (so a timestamp keeps only its day), '' for a missing date. */
  function EditPrefill(e: EventRecord): (r: EventForm)
    ensures r.title == e.title && r.description == e.description && r.location == e.location
    ensures r.image == e.image
    ensures r.date <= e.date && 'T' !in r.date
    ensures |r.date| < |e.date| ==> e.date[|r.date|] == 'T'
    ensures e.date == "" ==> r.date == ""
  {
    EventForm(e.title, e.description, e.location, if e.date != "" then Before(e.date, 'T') else "", e.image)
  }

  class EventsPage {
    var events: seq<EventRecord>
    var showModal: bool
    var editing: Option<EventRecord>
    var form: EventForm
    var errors: Errors

    constructor ()
      ensures events == [] && !showModal && editing.None? && form == EmptyForm && errors == map[]
    {
      events := [];
      showModal := false;
      editing := None;
      form := EmptyForm;
      errors := map[];
    }

    /** `handleInputChange`: exactly the named field takes the value, and
        only that field's error is cleared. */
    method HandleInputChange(f: EventField, value: string)
      modifies this
      ensures form == old(form).With(f, value)
      ensures errors == ClearError(old(errors), FieldName(f))
      ensures events == old(events) && showModal == old(showModal) && editing == old(editing)
    {
      form := form.With(f, value);
      errors := ClearError(errors, FieldName(f));
    }

    /** `validateForm`: the errors become those of the current form. */
    method ValidateForm() returns (valid: bool)
      modifies this
      ensures errors == FormErrors(form)
      ensures valid <==> !IsBlank(form.title) && !IsBlank(form.description) && !IsBlank(form.location)
      ensures form == old(form) && events == old(events) && showModal == old(showModal) && editing == old(editing)
    {
      var newErrors := CollectErrors(form);
      errors := newErrors;
      valid := |newErrors| == 0;
      assert valid <==> newErrors == map[];
    }

    /** `handleSubmit`, given the server's reply. An invalid form sends
        nothing and changes only the errors. A valid one is sent; on success
        an edit replaces the events with the edited id by the response and a
        create puts the response first, and the dialog closes; on failure
        only the general error is set and the dialog stays open. */
    method HandleSubmit(reply: Reply<EventRecord>) returns (sent: Option<EventRequest>)
      modifies this
      ensures FormErrors(old(form)) != map[] ==>
                && sent.None? && errors == FormErrors(old(form))
                && events == old(events) && form == old(form) && editing == old(editing) && showModal == old(showModal)
      ensures FormErrors(old(form)) == map[] ==>
                && sent == Some(if old(editing).Some? then Update(old(editing).value.id, old(form)) else Create(old(form)))
      ensures FormErrors(old(form)) == map[] && reply.Ok? ==>
                && events == (if old(editing).Some?
                              then Replaced(old(events), EventId, old(editing).value.id, reply.value)
                              else [reply.value] + old(events))
                && !showModal && editing.None? && form == EmptyForm && errors == map[]
      ensures FormErrors(old(form)) == map[] && reply.Err? ==>
                && errors == General(SaveFailed)
                && events == old(events) && form == old(form) && editing == old(editing) && showModal == old(showModal)
    {
      var valid := ValidateForm();
      if !valid {
        return None;
      }
      sent := Some(if editing.Some? then Update(editing.value.id, form) else Create(form));
      match reply
      case Ok(saved) =>
        if editing.Some? {
          events := Replaced(events, EventId, editing.value.id, saved);
        } else {
          events := [saved] + events;
        }
        CloseModal();
      case Err(_) =>
        errors := General(SaveFailed);
    }

    /** `handleEdit`: the event becomes the edited one, the form is filled
        from it and the dialog opens; the errors are left as they were. */
    method HandleEdit(e: EventRecord)
      modifies this
      ensures editing == Some(e) && form == EditPrefill(e) && showModal
      ensures events == old(events) && errors == old(errors)
    {
      editing := Some(e);
      form := EditPrefill(e);
      showModal := true;
    }

    /** `handleDelete`, given the user's answer to the confirmation and the
        server's reply: a request is sent only when confirmed, and only a
        successful one removes the events with that id. */
    method HandleDelete(id: Id, confirmed: bool, reply: Reply<()>) returns (sent: bool)
      modifies this
      ensures sent == confirmed
      ensures events == if confirmed && reply.Ok? then Removed(old(events), EventId, id) else old(events)
      ensures showModal == old(showModal) && editing == old(editing) && form == old(form) && errors == old(errors)
    {
      if !confirmed {
        return false;
      }
      sent := true;
      if reply.Ok? {
        events := Removed(events, EventId, id);
      }
    }

    /** `openModal`: a blank create dialog. */
    method OpenModal()
      modifies this
      ensures editing.None? && form == EmptyForm && errors == map[] && showModal
      ensures events == old(events)
    {
      editing := None;
      form := EmptyForm;
      errors := map[];
      showModal := true;
    }

    /** `closeModal`: the dialog is hidden and reset. */
    method CloseModal()
      modifies this
      ensures !showModal && editing.None? && form == EmptyForm && errors == map[]
      ensures events == old(events)
    {
      showModal := false;
      editing := None;
      form := EmptyForm;
      errors := map[];
    }
  }
}
