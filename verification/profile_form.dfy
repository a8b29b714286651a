/** The volunteer profile form of `front_end_dev/ems/src/pages/Profile/User/userProfile.jsx`: the
    form object, the state of its two widgets, and the handlers that compute the next state. The
    request the submit handler sends is its result; the network call itself is not modelled. */
module ProfileForm {
  import opened JsCore
  import opened JsArray
  import opened JsText
  import opened FormCommon

  datatype Form = Form(
    fullName: string,
    address1: string,
    address2: string,
    city: string,
    state: string,
    zipCode: string,
    skills: seq<string>,
    preferences: string,
    availability: seq<string>)

  /** The inputs `handleChange` serves as plain text fields. */
  datatype TextField = FullName | Address1 | Address2 | City | StateField | Preferences

  /** An input event `handleChange` receives: a text field's new value, or a skill checkbox. */
  datatype Change = Text(field: TextField, value: string) | SkillBox(value: string, checked: bool)

  /** The component's whole state: the form, the drop-down flag and the pending availability date. */
  datatype Editor = Editor(form: Form, dropdownOpen: bool, newAvailability: string)

  const InitialForm: Form := Form("", "", "", "", "", "", [], "", [])

  const InitialEditor: Editor := Editor(InitialForm, false, "")

  /** The value a text field holds. */
  function TextOf(f: Form, field: TextField): string {
    match field
    case FullName => f.fullName
    case Address1 => f.address1
    case Address2 => f.address2
    case City => f.city
    case StateField => f.state
    case Preferences => f.preferences
  }

  /** `{ ...prev, [name]: value }` for a text field. */
  function SetText(f: Form, field: TextField, value: string): (r: Form)
    ensures TextOf(r, field) == value
    ensures forall g :: g != field ==> TextOf(r, g) == TextOf(f, g)
    ensures r.zipCode == f.zipCode && r.skills == f.skills && r.availability == f.availability
  {
    match field
    case FullName => f.(fullName := value)
    case Address1 => f.(address1 := value)
    case Address2 => f.(address2 := value)
    case City => f.(city := value)
    case StateField => f.(state := value)
    case Preferences => f.(preferences := value)
  }

  /** `handleChange`: a checkbox rewrites the skill list, any other input its own field. */
  function HandleChange(f: Form, c: Change): (r: Form)
    ensures c.SkillBox? ==> r == f.(skills := CheckboxSkills(f.skills, c.value, c.checked))
    ensures c.Text? ==> TextOf(r, c.field) == c.value && r.skills == f.skills
    ensures c.Text? ==> forall g :: g != c.field ==> TextOf(r, g) == TextOf(f, g)
    ensures r.zipCode == f.zipCode && r.availability == f.availability
  {
    match c
    case SkillBox(value, checked) => f.(skills := CheckboxSkills(f.skills, value, checked))
    case Text(field, value) => SetText(f, field, value)
  }

  /** The zip input's handler on the form. */
  function HandleZip(f: Form, value: string): (r: Form)
    ensures AllDigits(value) ==> r == f.(zipCode := value)
    ensures !AllDigits(value) ==> r == f
  {
    f.(zipCode := ZipInput(f.zipCode, value))
  }

  /** The fields `handleSubmit` requires, in the order it lists them. */
  const RequiredFields: seq<string> := ["fullName", "address1", "city", "state", "zipCode", "skills"]

  /** `!formData[field] || formData[field] === "" || (field === "skills" && formData[field].length === 0)`:
      a text field is missing when empty, the skill list when it has no element. */
  predicate IsMissing(f: Form, field: string) {
    match field
    case "fullName" => f.fullName == ""
    case "address1" => f.address1 == ""
    case "city" => f.city == ""
    case "state" => f.state == ""
    case "zipCode" => f.zipCode == ""
    case "skills" => f.skills == []
    case _ => false
  }

  /** The missing required fields, in the order of the required list. */
  function MissingFields(f: Form): (r: seq<string>)
    ensures |r| <= |RequiredFields|
    ensures forall n :: n in r <==> n in RequiredFields && IsMissing(f, n)
  {
    Filter(RequiredFields, (n: string) => IsMissing(f, n))
  }

  /** Nothing is missing exactly when the five text fields and the skill list are all non-empty. */
  lemma NothingMissing(f: Form)
    ensures MissingFields(f) == [] <==>
              f.fullName != "" && f.address1 != "" && f.city != "" && f.state != "" && f.zipCode != "" && f.skills != []
  {
    if MissingFields(f) == [] {
      assert forall i :: 0 <= i < |RequiredFields| ==> !IsMissing(f, RequiredFields[i]) by {
        forall i | 0 <= i < |RequiredFields| ensures !IsMissing(f, RequiredFields[i]) {
          assert RequiredFields[i] in RequiredFields;
        }
      }
    }
  }

  /** An empty full name is always reported first, and the untouched form misses every field. */
  lemma MissingFieldsOrder(f: Form)
    ensures f.fullName == "" ==> MissingFields(f)[0] == "fullName"
    ensures MissingFields(InitialForm) == RequiredFields
  {
    var q := (n: string) => IsMissing(InitialForm, n);
    assert forall i :: 0 <= i < |RequiredFields| ==> q(RequiredFields[i]);
    FilterAll(RequiredFields, q);
  }

  /** `handleSubmit`: the form object that is sent as the request body, or None when a required
      field is missing and nothing is sent. */
  function Submit(f: Form): (sent: Option<Form>)
    ensures sent.Some? <==> MissingFields(f) == []
    ensures sent.Some? ==> sent.value == f
  {
    if MissingFields(f) == [] then Some(f) else None
  }

  /** `handleAddAvailability`: a non-empty date not yet listed is appended and the date input
      cleared; otherwise nothing changes. */
  function AddAvailability(e: Editor): (r: Editor)
    ensures e.newAvailability != "" && e.newAvailability !in e.form.availability ==>
              r == e.(form := e.form.(availability := e.form.availability + [e.newAvailability]), newAvailability := "")
    ensures e.newAvailability == "" || e.newAvailability in e.form.availability ==> r == e
  {
    if e.newAvailability != "" && e.newAvailability !in e.form.availability then
      e.(form := e.form.(availability := e.form.availability + [e.newAvailability]), newAvailability := "")
    else e
  }

  /** `handleRemoveAvailability`: every occurrence of the date goes, the other dates keep their order. */
  function RemoveAvailability(f: Form, date: string): (r: Form)
    ensures date !in r.availability && |r.availability| <= |f.availability|
    ensures forall d :: d in r.availability <==> d in f.availability && d != date
    ensures r == f.(availability := r.availability)
  {
    f.(availability := Filter(f.availability, (d: string) => d != date))
  }

  /** Removing works date by date: on a list made of two parts it removes from each part and keeps
      the parts in order, and a single date stays exactly when it is not the one removed. */
  lemma RemoveAvailabilityKeepsOrder(f: Form, a: seq<string>, b: seq<string>, d: string, date: string)
    ensures RemoveAvailability(f.(availability := a + b), date).availability
            == RemoveAvailability(f.(availability := a), date).availability
               + RemoveAvailability(f.(availability := b), date).availability
    ensures RemoveAvailability(f.(availability := [d]), date).availability == if d == date then [] else [d]
  {
    FilterAppend(a, b, (x: string) => x != date);
  }

  /** Adding keeps the availability list free of repeats. */
  lemma AddAvailabilityKeepsNoDuplicates(e: Editor)
    requires NoDuplicates(e.form.availability)
    ensures NoDuplicates(AddAvailability(e).form.availability)
  {
  }

  /** Removing keeps the availability list free of repeats. */
  lemma RemoveAvailabilityKeepsNoDuplicates(f: Form, date: string)
    requires NoDuplicates(f.availability)
    ensures NoDuplicates(RemoveAvailability(f, date).availability)
  {
    FilterKeepsNoDuplicates(f.availability, (d: string) => d != date);
  }

  /** Removing a date just added gives the old form back. */
  lemma RemoveUndoesAdd(e: Editor)
    requires e.newAvailability != "" && e.newAvailability !in e.form.availability
    ensures RemoveAvailability(AddAvailability(e).form, e.newAvailability) == e.form
  {
    var p := (d: string) => d != e.newAvailability;
    FilterAppend(e.form.availability, [e.newAvailability], p);
    FilterAll(e.form.availability, p);
    assert Filter([e.newAvailability], p) == [];
  }

  /** Adding is idempotent: typing the same date again and adding it changes nothing more. */
  lemma AddAvailabilityTwice(e: Editor)
    ensures var once := AddAvailability(e).(newAvailability := e.newAvailability);
            AddAvailability(once) == once
  {
  }
}
