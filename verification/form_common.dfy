/** State transitions both revisions of the volunteer profile form share: the skill checkbox, the
    digits-only zip input and the skills drop-down flag. */
module FormCommon {
  import opened JsArray
  import opened JsText

  /** The skill list after a checkbox change: a checked box appends its value, an unchecked box
      removes every occurrence of it and keeps the other skills in order. */
  function CheckboxSkills(skills: seq<string>, value: string, checked: bool): (r: seq<string>)
    ensures checked ==> r == skills + [value]
    ensures !checked ==> value !in r && |r| <= |skills|
    ensures !checked ==> forall s :: s in r <==> s in skills && s != value
  {
    if checked then skills + [value] else Filter(skills, (s: string) => s != value)
  }

  /** Unchecking a box just checked restores the list, when the skill was not there before. */
  lemma UncheckUndoesCheck(skills: seq<string>, value: string)
    requires value !in skills
    ensures CheckboxSkills(CheckboxSkills(skills, value, true), value, false) == skills
  {
    var p := (s: string) => s != value;
    FilterAppend(skills, [value], p);
    FilterAll(skills, p);
    assert Filter([value], p) == [];
  }

  /** Unchecking removes the skill from any list, and a list without repeats keeps none after a
      check of a new skill or an uncheck. */
  lemma CheckboxKeepsNoDuplicates(skills: seq<string>, value: string, checked: bool)
    requires NoDuplicates(skills)
    requires checked ==> value !in skills
    ensures NoDuplicates(CheckboxSkills(skills, value, checked))
  {
    if !checked {
      FilterKeepsNoDuplicates(skills, (s: string) => s != value);
    }
  }

  /** A filter of a list without repeats has none. */
  lemma {:induction false} FilterKeepsNoDuplicates(xs: seq<string>, p: string -> bool)
    requires NoDuplicates(xs)
    ensures NoDuplicates(Filter(xs, p))
  {
    if xs != [] {
      FilterKeepsNoDuplicates(xs[1..], p);
      assert xs[0] !in xs[1..];
    }
  }

  /** The zip input's handler: a value passing `/^\d*$/` replaces the zip, any other leaves it. */
  function ZipInput(zip: string, value: string): (r: string)
    ensures AllDigits(value) ==> r == value
    ensures !AllDigits(value) ==> r == zip
  {
    if AllDigits(value) then value else zip
  }

  /** The zip field only ever holds digits: the handler keeps that true from the empty start. */
  lemma ZipStaysDigits(zip: string, value: string)
    requires AllDigits(zip)
    ensures AllDigits(ZipInput(zip, value))
  {
  }

  /** `setDropdownOpen(prev => !prev)`. */
  function ToggleDropdown(open: bool): (r: bool)
    ensures r != open
  {
    !open
  }

  /** Toggling twice closes what was open and opens what was closed: the flag comes back. */
  lemma ToggleTwice(open: bool)
    ensures ToggleDropdown(ToggleDropdown(open)) == open
  {
  }
}
