/** The member dialog (`MemberModal`): a six-field form filled from the
    member being edited (reading the legacy `age` field when `year` is
    missing), its required-field check, and the record it submits, which
    carries the year under the backend's `age` key. */
module MemberModal {
  import opened Base
  import opened Text
  import opened FormState

  /** The `name` attributes of the form's inputs. */
  datatype MemberField = Name | Year | Major | Role | Description | Picture

  /** The property name an input edits. */
  function FieldName(f: MemberField): string
  {
    match f
    case Name => "name"
    case Year => "year"
    case Major => "major"
    case Role => "role"
    case Description => "description"
    case Picture => "picture"
  }

  datatype MemberForm = MemberForm(name: string, year: string, major: string, role: string,
                                   description: string, picture: string)
  {
    function Get(f: MemberField): string
    {
      match f
      case Name => name
      case Year => year
      case Major => major
      case Role => role
      case Description => description
      case Picture => picture
    }

    /** `{ ...prev, [name]: value }`: the named field takes the value, the
        others keep theirs. */
    function With(f: MemberField, value: string): (r: MemberForm)
      ensures r.Get(f) == value
      ensures forall g :: g != f ==> r.Get(g) == Get(g)
    {
      match f
      case Name => this.(name := value)
      case Year => this.(year := value)
      case Major => this.(major := value)
      case Role => this.(role := value)
      case Description => this.(description := value)
      case Picture => this.(picture := value)
    }
  }

  const EmptyForm := MemberForm("", "", "", "", "", "")

  /** A member as the server returns it. Missing plain texts read as "";
      `year` and the legacy `age` may each be absent. */
  datatype MemberRecord = MemberRecord(id: Id, name: string, major: string, role: string, description: string,
                                       picture: string, year: Option<string>, age: Option<string>)

  function MemberId(m: MemberRecord): Id
  {
    m.id
  }

  /** The object handed to `onSubmit`: the form's fields with the year
      under `age`; it has no `year` key. */
  datatype MemberSubmission = MemberSubmission(name: string, age: string, major: string, role: string,
                                               description: string, picture: string)

  /** `editingMember.year || editingMember.age || ''`. */
  function YearOf(m: MemberRecord): (y: string)
    ensures Truthy(m.year) ==> y == m.year.value
    ensures !Truthy(m.year) && Truthy(m.age) ==> y == m.age.value
    ensures !Truthy(m.year) && !Truthy(m.age) ==> y == ""
  {
    if Truthy(m.year) then m.year.value else if Truthy(m.age) then m.age.value else ""
  }

  /** The prefill effect's form: a member's texts with the year from
      `year`, else `age`, else ''; six empty strings without a member. */
  function Prefill(editing: Option<MemberRecord>): (r: MemberForm)
    ensures editing.None? ==> r == EmptyForm
    ensures editing.Some? ==>
              && r.name == editing.value.name && r.major == editing.value.major && r.role == editing.value.role
              && r.description == editing.value.description && r.picture == editing.value.picture
              && r.year == YearOf(editing.value)
  {
    match editing
    case None => EmptyForm
    case Some(m) => MemberForm(m.name, YearOf(m), m.major, m.role, m.description, m.picture)
  }

  const NameRequired := "Name is required"
  const YearRequired := "Year is required"
  const MajorRequired := "Major is required"
  const RoleRequired := "Role is required"
  const DescriptionRequired := "Description is required"

  /** The errors `validateForm` reports: one for each of name, year, major,
      role and description that is blank after trimming; the picture is
      optional. The form is valid exactly when there are none. */
  function FormErrors(form: MemberForm): (r: Errors)
    ensures "name" in r <==> IsBlank(form.name)
    ensures "year" in r <==> IsBlank(form.year)
    ensures "major" in r <==> IsBlank(form.major)
    ensures "role" in r <==> IsBlank(form.role)
    ensures "description" in r <==> IsBlank(form.description)
    ensures r.Keys <= {"name", "year", "major", "role", "description"}
    ensures "name" in r ==> r["name"] == NameRequired
    ensures "year" in r ==> r["year"] == YearRequired
    ensures "major" in r ==> r["major"] == MajorRequired
    ensures "role" in r ==> r["role"] == RoleRequired
    ensures "description" in r ==> r["description"] == DescriptionRequired
    ensures r == map[] <==>
              && !IsBlank(form.name) && !IsBlank(form.year) && !IsBlank(form.major)
              && !IsBlank(form.role) && !IsBlank(form.description)
  {
    var e1: Errors := if IsBlank(form.name) then map["name" := NameRequired] else map[];
    var e2 := if IsBlank(form.year) then e1["year" := YearRequired] else e1;
    var e3 := if IsBlank(form.major) then e2["major" := MajorRequired] else e2;
    var e4 := if IsBlank(form.role) then e3["role" := RoleRequired] else e3;
    if IsBlank(form.description) then e4["description" := DescriptionRequired] else e4
  }

  /** `validateForm`'s body: the error map filled one check at a time. */
  method CollectErrors(form: MemberForm) returns (errors: Errors)
    ensures errors == FormErrors(form)
  {
    errors := map[];
    if IsBlank(form.name) {
      errors := errors["name" := NameRequired];
    }
    if IsBlank(form.year) {
      errors := errors["year" := YearRequired];
    }
    if IsBlank(form.major) {
      errors := errors["major" := MajorRequired];
    }
    if IsBlank(form.role) {
      errors := errors["role" := RoleRequired];
    }
    if IsBlank(form.description) {
      errors := errors["description" := DescriptionRequired];
    }
  }

  /** `{ ...formData, age: formData.year }` without `year`. */
  function Submission(form: MemberForm): (s: MemberSubmission)
    ensures s.age == form.year
    ensures s.name == form.name && s.major == form.major && s.role == form.role
    ensures s.description == form.description && s.picture == form.picture
  {
    MemberSubmission(form.name, form.year, form.major, form.role, form.description, form.picture)
  }

  /** The form as the object `formData`: one key per input. */
  function FormObject(form: MemberForm): (o: map<string, string>)
    ensures o.Keys == {"name", "year", "major", "role", "description", "picture"}
    ensures forall f :: FieldName(f) in o && o[FieldName(f)] == form.Get(f)
  {
    map["name" := form.name, "year" := form.year, "major" := form.major, "role" := form.role,
        "description" := form.description, "picture" := form.picture]
  }

  /** A submission as the object handed to `onSubmit`. */
  function SubmissionObject(s: MemberSubmission): (o: map<string, string>)
    ensures o.Keys == {"name", "age", "major", "role", "description", "picture"}
    ensures "year" !in o
    ensures o["age"] == s.age && o["name"] == s.name && o["major"] == s.major
    ensures o["role"] == s.role && o["description"] == s.description && o["picture"] == s.picture
  {
    map["name" := s.name, "age" := s.age, "major" := s.major, "role" := s.role,
        "description" := s.description, "picture" := s.picture]
  }

  /** `handleSubmit`'s `submitData`: the form object spread, `age` added
      with the year, then `year` deleted. The result is the submission of
      the form: the year under `age`, no `year` key, every other value
      copied. */
  method BuildSubmitData(form: MemberForm) returns (data: map<string, string>)
    ensures data == SubmissionObject(Submission(form))
  {
    data := FormObject(form);
    data := data["age" := form.year];
    data := data - {"year"};
    assert data.Keys == SubmissionObject(Submission(form)).Keys;
  }

  /** A member stored from a submission: it carries the year only as `age`. */
  function StoredAs(id: Id, s: MemberSubmission): MemberRecord
  {
    MemberRecord(id, s.name, s.major, s.role, s.description, s.picture, None, Some(s.age))
  }

  /** Editing a member saved from the dialog fills the form it was saved
      from: the year comes back through the legacy `age` key. */
  lemma {:induction false} PrefillAfterSubmit(id: Id, form: MemberForm)
    ensures Prefill(Some(StoredAs(id, Submission(form)))) == form
  {
    var m := StoredAs(id, Submission(form));
    assert !Truthy(m.year);
    if form.year == "" {
      assert YearOf(m) == "";
    } else {
      assert YearOf(m) == form.year;
    }
  }

  class MemberModalForm {
    var form: MemberForm
    var errors: Errors
    var submitted: seq<map<string, string>>

    constructor ()
      ensures form == EmptyForm && errors == map[] && submitted == []
    {
      form := EmptyForm;
      errors := map[];
      submitted := [];
    }

    /** The effect run when `editingMember` or `isOpen` changes: the form is
        prefilled and every error cleared. */
    method OnEditingChange(editing: Option<MemberRecord>)
      modifies this
      ensures form == Prefill(editing) && errors == map[] && submitted == old(submitted)
    {
      form := Prefill(editing);
      errors := map[];
    }

    /** `handleChange`: exactly the named field takes the value, and only
        that field's error is cleared. */
    method HandleChange(f: MemberField, value: string)
      modifies this
      ensures form == old(form).With(f, value)
      ensures errors == ClearError(old(errors), FieldName(f))
      ensures submitted == old(submitted)
    {
      form := form.With(f, value);
      errors := ClearError(errors, FieldName(f));
    }

    /** `validateForm`: the errors become those of the current form. */
    method ValidateForm() returns (valid: bool)
      modifies this
      ensures errors == FormErrors(form) && (valid <==> errors == map[])
      ensures form == old(form) && submitted == old(submitted)
    {
      var newErrors := CollectErrors(form);
      errors := newErrors;
      valid := |newErrors| == 0;
      assert valid <==> newErrors == map[];
    }

    /** `handleSubmit`: an invalid form hands nothing to `onSubmit`; a valid
        one hands over its submission object. A throwing `onSubmit` is only
        logged, so its outcome changes nothing here. */
    method HandleSubmit() returns (sent: Option<map<string, string>>)
      modifies this
      ensures form == old(form) && errors == FormErrors(old(form))
      ensures FormErrors(old(form)) != map[] ==> sent.None? && submitted == old(submitted)
      ensures FormErrors(old(form)) == map[] ==>
                && sent == Some(SubmissionObject(Submission(old(form))))
                && submitted == old(submitted) + [SubmissionObject(Submission(old(form)))]
    {
      var valid := ValidateForm();
      if !valid {
        return None;
      }
      var submitData := BuildSubmitData(form);
      submitted := submitted + [submitData];
      sent := Some(submitData);
    }
  }
}
