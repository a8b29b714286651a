/** The older profile form of `src/pages/Profile/User/userProfile.jsx`: the same checkbox and zip
    handlers, availability as a single date field, and a submit that hands the form over as it is. */
module LegacyProfileForm {
  import opened JsText
  import opened FormCommon
  import ProfileForm

  datatype Form = Form(
    fullName: string,
    address1: string,
    address2: string,
    city: string,
    state: string,
    zipCode: string,
    skills: seq<string>,
    preferences: string,
    availability: string)

  /** The inputs `handleChange` serves as plain text fields; the date input is one of them. */
  datatype TextField = FullName | Address1 | Address2 | City | StateField | Preferences | Availability

  datatype Change = Text(field: TextField, value: string) | SkillBox(value: string, checked: bool)

  const InitialForm: Form := Form("", "", "", "", "", "", [], "", "")

  function TextOf(f: Form, field: TextField): string {
    match field
    case FullName => f.fullName
    case Address1 => f.address1
    case Address2 => f.address2
    case City => f.city
    case StateField => f.state
    case Preferences => f.preferences
    case Availability => f.availability
  }

  /** `handleChange`: a checkbox rewrites the skill list, any other input its own field. */
  function HandleChange(f: Form, c: Change): (r: Form)
    ensures c.SkillBox? ==> r == f.(skills := CheckboxSkills(f.skills, c.value, c.checked))
    ensures c.Text? ==> TextOf(r, c.field) == c.value && r.skills == f.skills
    ensures c.Text? ==> forall g :: g != c.field ==> TextOf(r, g) == TextOf(f, g)
    ensures r.zipCode == f.zipCode
  {
    match c
    case SkillBox(value, checked) => f.(skills := CheckboxSkills(f.skills, value, checked))
    case Text(field, value) =>
      match field
      case FullName => f.(fullName := value)
      case Address1 => f.(address1 := value)
      case Address2 => f.(address2 := value)
      case City => f.(city := value)
      case StateField => f.(state := value)
      case Preferences => f.(preferences := value)
      case Availability => f.(availability := value)
  }

  /** The zip input's handler on the form. */
  function HandleZip(f: Form, value: string): (r: Form)
    ensures AllDigits(value) ==> r == f.(zipCode := value)
    ensures !AllDigits(value) ==> r == f
  {
    f.(zipCode := ZipInput(f.zipCode, value))
  }

  /** `handleSubmit`: `onSubmit` receives the form exactly as it stands, with nothing checked. */
  function Submit(f: Form): (handed: Form)
    ensures handed == f
  {
    f
  }

  /** The two revisions agree on every profile field an edit touches, and differ in what submit
      lets through: the untouched form, which the newer revision refuses to send, is handed over
      here. */
  lemma SubmitIsUnchecked()
    ensures Submit(InitialForm) == InitialForm
    ensures ProfileForm.Submit(ProfileForm.InitialForm).None?
  {
    ProfileForm.NothingMissing(ProfileForm.InitialForm);
  }

  /** One input event on the form: a change through `handleChange` or a value typed into the zip. */
  datatype Input = Edit(change: Change) | ZipTyped(value: string)

  /** The form after a sequence of input events, in order. */
  function Replay(f: Form, inputs: seq<Input>): (r: Form)
    ensures inputs == [] ==> r == f
    decreases |inputs|
  {
    if inputs == [] then f
    else
      var next := match inputs[0]
        case Edit(c) => HandleChange(f, c)
        case ZipTyped(v) => HandleZip(f, v);
      Replay(next, inputs[1..])
  }

  /** Whatever the user types, in whatever order, the zip field holds only digits. */
  lemma {:induction false} ZipOnlyDigits(f: Form, inputs: seq<Input>)
    requires AllDigits(f.zipCode)
    ensures AllDigits(Replay(f, inputs).zipCode)
    decreases |inputs|
  {
    if inputs != [] {
      match inputs[0]
      case Edit(c) => ZipOnlyDigits(HandleChange(f, c), inputs[1..]);
      case ZipTyped(v) => ZipOnlyDigits(HandleZip(f, v), inputs[1..]);
    }
  }
}
