/** The event form shared by the events page and the event dialog: its five
    text fields, the event records the server returns, and the required-field
    check both components run before saving. */
module EventForms {
  import opened Base
  import opened Text
  import opened FormState

  /** The `name` attributes of the form's inputs. */
  datatype EventField = Title | Description | Location | Date | Image

  /** The property name an input edits. */
  function FieldName(f: EventField): string
  {
    match f
    case Title => "title"
    case Description => "description"
    case Location => "location"
    case Date => "date"
    case Image => "image"
  }

  datatype EventForm = EventForm(title: string, description: string, location: string, date: string, image: string)
  {
    function Get(f: EventField): string
    {
      match f
      case Title => title
      case Description => description
      case Location => location
      case Date => date
      case Image => image
    }

    /** `{ ...prev, [name]: value }`: the named field takes the value, the
        others keep theirs. */
    function With(f: EventField, value: string): (r: EventForm)
      ensures r.Get(f) == value
      ensures forall g :: g != f ==> r.Get(g) == Get(g)
    {
      match f
      case Title => this.(title := value)
      case Description => this.(description := value)
      case Location => this.(location := value)
      case Date => this.(date := value)
      case Image => this.(image := value)
    }
  }

  /** Five empty strings: the form of a new event and of a closed dialog. */
  const EmptyForm := EventForm("", "", "", "", "")

  /** An event as the server returns it; a missing text field reads as "". */
  datatype EventRecord = EventRecord(id: Id, title: string, description: string, location: string,
                                     date: string, image: string)

  function EventId(e: EventRecord): Id
  {
    e.id
  }

  const TitleRequired := "Title is required"
  const DescriptionRequired := "Description is required"
  const LocationRequired := "Location is required"

  /** The errors `validateForm` reports: one for each of title, description
      and location that is blank after trimming, and nothing else; date and
      image are never required. The form is valid exactly when there are
      none. */
  function FormErrors(form: EventForm): (r: Errors)
    ensures "title" in r <==> IsBlank(form.title)
    ensures "description" in r <==> IsBlank(form.description)
    ensures "location" in r <==> IsBlank(form.location)
    ensures r.Keys <= {"title", "description", "location"}
    ensures "title" in r ==> r["title"] == TitleRequired
    ensures "description" in r ==> r["description"] == DescriptionRequired
    ensures "location" in r ==> r["location"] == LocationRequired
    ensures r == map[] <==> !IsBlank(form.title) && !IsBlank(form.description) && !IsBlank(form.location)
    ensures forall k :: k in r ==> Shown(r, k)
  {
    var e1: Errors := if IsBlank(form.title) then map["title" := TitleRequired] else map[];
    var e2 := if IsBlank(form.description) then e1["description" := DescriptionRequired] else e1;
    var e3 := if IsBlank(form.location) then e2["location" := LocationRequired] else e2;
    e3
  }

  /** `validateForm`'s body: the error map filled one check at a time. */
  method CollectErrors(form: EventForm) returns (errors: Errors)
    ensures errors == FormErrors(form)
  {
    errors := map[];
    if IsBlank(form.title) {
      errors := errors["title" := TitleRequired];
    }
    if IsBlank(form.description) {
      errors := errors["description" := DescriptionRequired];
    }
    if IsBlank(form.location) {
      errors := errors["location" := LocationRequired];
    }
  }
}
