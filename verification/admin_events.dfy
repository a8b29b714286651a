/** The administrator's event page of `front_end_dev/ems/src/pages/Profile/Admin/EventManagement.jsx`:
    the event form and its handlers, the create guards, the date string sent to the server, the
    volunteer roster computed from the fetched user table, and the per-event updates of the
    event list. What a fetch returns is a parameter; None stands for a request that failed or
    answered with an error status. */
module AdminEvents {
  import opened JsCore
  import opened JsArray
  import opened JsText
  import opened JsonRows
  import Records

  // ---------------------------------------------------------------- dates

  /** A calendar date as `getFullYear`, `getMonth` (0 to 11) and `getDate` report it. */
  datatype Date = Date(year: int, month: nat, day: nat)

  /** `getFullYear() + "-" + (getMonth()+1) + "-" + getDate()`: decimal numbers, no padding. */
  function DateString(d: Date): (r: string)
    ensures |r| >= 5
  {
    IntToString(d.year) + "-" + NatToString(d.month + 1) + "-" + NatToString(d.day)
  }

  /** A digit string followed by a dash ends where the dash is: a second such split of the same
      string cannot end earlier. */
  lemma DashAfterDigits(a: string, b: string, c: string, d: string)
    requires AllDigits(a)
    requires a + "-" + b == c + "-" + d
    ensures |a| <= |c|
  {
    var s := a + "-" + b;
    assert s[|c|] == '-' by {
      assert s == c + "-" + d;
    }
    assert forall i :: 0 <= i < |a| ==> s[i] == a[i];
  }

  /** Two digit strings each followed by a dash split a string the same way. */
  lemma DigitsBeforeDash(a: string, b: string, c: string, d: string)
    requires AllDigits(a) && AllDigits(c)
    requires a + "-" + b == c + "-" + d
    ensures a == c && b == d
  {
    DashAfterDigits(a, b, c, d);
    DashAfterDigits(c, d, a, b);
    var s := a + "-" + b;
    var t := c + "-" + d;
    assert a == s[..|a|] && c == t[..|c|];
    assert b == s[|a| + 1..] && d == t[|c| + 1..];
  }

  /** The same for a possibly negative year: the sign, then digits, then the dash. */
  lemma YearBeforeDash(i: int, j: int, b: string, c: string)
    requires IntToString(i) + "-" + b == IntToString(j) + "-" + c
    ensures i == j && b == c
  {
    var x, y := IntToString(i), IntToString(j);
    assert (x + "-" + b)[0] == x[0] && (y + "-" + c)[0] == y[0];
    assert i < 0 <==> x[0] == '-';
    assert j < 0 <==> y[0] == '-';
    if i >= 0 {
      DigitsBeforeDash(x, b, y, c);
      NatToStringInjective(i, j);
    } else {
      assert (x + "-" + b)[1..] == x[1..] + "-" + b;
      assert (y + "-" + c)[1..] == y[1..] + "-" + c;
      DigitsBeforeDash(x[1..], b, y[1..], c);
      NatToStringInjective(-i, -j);
    }
  }

  /** Different dates give different strings, so the server can read the date back. */
  lemma DateStringInjective(x: Date, y: Date)
    requires DateString(x) == DateString(y)
    ensures x == y
  {
    var mx := NatToString(x.month + 1) + "-" + NatToString(x.day);
    var my := NatToString(y.month + 1) + "-" + NatToString(y.day);
    assert DateString(x) == IntToString(x.year) + "-" + mx;
    assert DateString(y) == IntToString(y.year) + "-" + my;
    YearBeforeDash(x.year, y.year, mx, my);
    DigitsBeforeDash(NatToString(x.month + 1), NatToString(x.day), NatToString(y.month + 1), NatToString(y.day));
    NatToStringInjective(x.month + 1, y.month + 1);
    NatToStringInjective(x.day, y.day);
  }

  /** No zero padding: a date in January to September on days 1 to 9 spends one character on the
      month and one on the day, so 5 January 2025 is "2025-1-5". */
  lemma DateStringUnpadded(d: Date)
    requires d.month < 9 && d.day < 10
    ensures |DateString(d)| == |IntToString(d.year)| + 4
    ensures DateString(Date(2025, 0, 5)) == "2025-1-5"
  {
    assert NatToString(2025) == "2025" by {
      assert NatToString(2) == "2";
      assert NatToString(20) == "20";
      assert NatToString(202) == "202";
    }
  }

  // ---------------------------------------------------------------- the form

  /** The form state `eventDetails`. */
  datatype EventDetails = EventDetails(
    name: string,
    location: string,
    envoy: string,
    requiredSkills: seq<Json>,
    urgencyLevel: string,
    date: Date,
    manager: string,
    selectedVolunteers: seq<Json>)

  /** The inputs `handleEventChange` serves. */
  datatype TextField = Name | Location | Envoy | UrgencyLevel | Manager

  /** The empty form; `new Date()` is the parameter `today`. */
  function InitialDetails(today: Date): EventDetails {
    EventDetails("", "", "", [], "", today, "", [])
  }

  /** The value a text input holds. */
  function TextOf(d: EventDetails, field: TextField): string {
    match field
    case Name => d.name
    case Location => d.location
    case Envoy => d.envoy
    case UrgencyLevel => d.urgencyLevel
    case Manager => d.manager
  }

  /** `handleEventChange`: `{ ...eventDetails, [name]: value }`. */
  function HandleEventChange(d: EventDetails, field: TextField, value: string): (r: EventDetails)
    ensures TextOf(r, field) == value
    ensures forall g :: g != field ==> TextOf(r, g) == TextOf(d, g)
    ensures r.requiredSkills == d.requiredSkills && r.date == d.date && r.selectedVolunteers == d.selectedVolunteers
  {
    match field
    case Name => d.(name := value)
    case Location => d.(location := value)
    case Envoy => d.(envoy := value)
    case UrgencyLevel => d.(urgencyLevel := value)
    case Manager => d.(manager := value)
  }

  /** `handleSkillChange`: the selected options, a cleared selection (null, None here) stored as []. */
  function HandleSkillChange(d: EventDetails, selected: Option<seq<Json>>): (r: EventDetails)
    ensures r == d.(requiredSkills := r.requiredSkills)
    ensures selected.None? ==> r.requiredSkills == []
    ensures selected.Some? ==> r.requiredSkills == selected.value
  {
    d.(requiredSkills := selected.GetOr([]))
  }

  /** `handleVolunteerChange`: likewise for the selected volunteers. */
  function HandleVolunteerChange(d: EventDetails, selected: Option<seq<Json>>): (r: EventDetails)
    ensures r == d.(selectedVolunteers := r.selectedVolunteers)
    ensures selected.None? ==> r.selectedVolunteers == []
    ensures selected.Some? ==> r.selectedVolunteers == selected.value
  {
    d.(selectedVolunteers := selected.GetOr([]))
  }

  /** `handleDateChange`. */
  function HandleDateChange(d: EventDetails, date: Date): (r: EventDetails)
    ensures r.date == date && r == d.(date := r.date)
  {
    d.(date := date)
  }

  /** The early returns of `handleCreateEvent`, in order, for a blank test `blank`; the envoy
      text is never looked at. */
  function CreateChecksWith(d: EventDetails, blank: string -> bool): seq<Check> {
    [Check(!blank(d.name), "Event name is required."),
     Check(!blank(d.location), "Event location is required."),
     Check(|d.requiredSkills| != 0, "Please select at least one required skill."),
     Check(!blank(d.manager), "Please select a manager for the event."),
     Check(!blank(d.urgencyLevel), "Please select an urgency level.")]
  }

  /** `!s.trim()`. */
  predicate IsBlank(s: string) {
    Trim(s) == ""
  }

  /** The guards as the page runs them. */
  function CreateChecks(d: EventDetails): seq<Check> {
    CreateChecksWith(d, IsBlank)
  }

  /** With any blank test, the guards pass exactly when no checked text is blank and a skill is
      selected. */
  lemma CreateChecksWithPass(d: EventDetails, blank: string -> bool)
    ensures FirstFailure(CreateChecksWith(d, blank)).None? <==>
              !blank(d.name) && !blank(d.location) && d.requiredSkills != [] && !blank(d.manager) && !blank(d.urgencyLevel)
  {
    var cs := CreateChecksWith(d, blank);
    assert cs[0].passes == !blank(d.name) && cs[1].passes == !blank(d.location) && cs[2].passes == (d.requiredSkills != []);
    assert cs[3].passes == !blank(d.manager) && cs[4].passes == !blank(d.urgencyLevel);
  }

  /** The guards pass exactly when the name, location, manager and urgency each hold a
      non-whitespace character and a skill is selected. */
  lemma CreateChecksPass(d: EventDetails)
    ensures FirstFailure(CreateChecks(d)).None? <==>
              !AllWhitespace(d.name) && !AllWhitespace(d.location) && d.requiredSkills != []
              && !AllWhitespace(d.manager) && !AllWhitespace(d.urgencyLevel)
  {
    CreateChecksWithPass(d, IsBlank);
  }

  /** With any blank test, the first failing guard is the one reported. */
  lemma CreateCheckOrderWith(d: EventDetails, blank: string -> bool)
    ensures blank(d.name) ==> FirstFailure(CreateChecksWith(d, blank)) == Some("Event name is required.")
    ensures !blank(d.name) && blank(d.location) ==>
              FirstFailure(CreateChecksWith(d, blank)) == Some("Event location is required.")
    ensures !blank(d.name) && !blank(d.location) && d.requiredSkills == [] ==>
              FirstFailure(CreateChecksWith(d, blank)) == Some("Please select at least one required skill.")
    ensures !blank(d.name) && !blank(d.location) && d.requiredSkills != [] && blank(d.manager) ==>
              FirstFailure(CreateChecksWith(d, blank)) == Some("Please select a manager for the event.")
    ensures !blank(d.name) && !blank(d.location) && d.requiredSkills != [] && !blank(d.manager) && blank(d.urgencyLevel) ==>
              FirstFailure(CreateChecksWith(d, blank)) == Some("Please select an urgency level.")
  {
    var cs := CreateChecksWith(d, blank);
    if blank(d.name) {
      FirstFailureIs(cs, 0);
    } else if blank(d.location) {
      FirstFailureIs(cs, 1);
    } else if d.requiredSkills == [] {
      FirstFailureIs(cs, 2);
    } else if blank(d.manager) {
      FirstFailureIs(cs, 3);
    } else if blank(d.urgencyLevel) {
      FirstFailureIs(cs, 4);
    }
  }

  /** The first failing guard is the one reported: a blank name hides every later problem, and so on
      down the list. */
  lemma CreateCheckOrder(d: EventDetails)
    ensures AllWhitespace(d.name) ==> FirstFailure(CreateChecks(d)) == Some("Event name is required.")
    ensures !AllWhitespace(d.name) && AllWhitespace(d.location) ==>
              FirstFailure(CreateChecks(d)) == Some("Event location is required.")
    ensures !AllWhitespace(d.name) && !AllWhitespace(d.location) && d.requiredSkills == [] ==>
              FirstFailure(CreateChecks(d)) == Some("Please select at least one required skill.")
    ensures !AllWhitespace(d.name) && !AllWhitespace(d.location) && d.requiredSkills != [] && AllWhitespace(d.manager) ==>
              FirstFailure(CreateChecks(d)) == Some("Please select a manager for the event.")
    ensures !AllWhitespace(d.name) && !AllWhitespace(d.location) && d.requiredSkills != [] && !AllWhitespace(d.manager)
            && AllWhitespace(d.urgencyLevel) ==>
              FirstFailure(CreateChecks(d)) == Some("Please select an urgency level.")
  {
    CreateCheckOrderWith(d, IsBlank);
  }

  // ---------------------------------------------------------------- the roster

  /** `option.value` of a selected skill option; reading a property of null throws. */
  function OptionValue(o: Json): (r: Result<Option<Json>>)
    ensures r.TypeError? <==> o.JNull?
    ensures o.JObj? ==> r == Value(Get(o.fields, "value"))
    ensures !o.JNull? && !o.JObj? ==> r == Value(None)
  {
    match o
    case JNull => TypeError
    case JObj(fields) => Value(Get(fields, "value"))
    case _ => Value(None)
  }

  /** `requiredSkills.map(skill => skill.value)`, keeping the values `includes` can find: an
      undefined `.value` is strictly equal to no skill a user row holds. */
  function SkillValues(items: seq<Json>): (r: Result<seq<Json>>)
    ensures r.TypeError? <==> exists i :: 0 <= i < |items| && items[i].JNull?
    ensures r.Value? ==> forall v :: Includes(r.value, v) <==>
              exists i :: 0 <= i < |items| && StrictEquals(OptionValue(items[i]).value, Some(v))
  {
    if items == [] then Value([])
    else
      match OptionValue(items[0])
      case TypeError => TypeError
      case Value(head) =>
        var rest := SkillValues(items[1..]);
        if rest.TypeError? then
          assert items[1..][0] == items[1];
          TypeError
        else
          var r := if head.Some? then [head.value] + rest.value else rest.value;
          assert items == [items[0]] + items[1..];
          assert forall v :: Includes(r, v) <==>
                             exists i :: 0 <= i < |items| && StrictEquals(OptionValue(items[i]).value, Some(v)) by {
            forall v ensures Includes(r, v) <==>
                             exists i :: 0 <= i < |items| && StrictEquals(OptionValue(items[i]).value, Some(v)) {
              SkillValuesStep(items[0], items[1..], head, rest.value, v);
            }
          }
          Value(r)
  }

  /** One step of `SkillValues`: putting the first option's value, when defined, in front of the
      values of the other options gives a list that holds `v` exactly when some option's value is
      `v`. */
  lemma SkillValuesStep(x: Json, tail: seq<Json>, head: Option<Json>, rest: seq<Json>, v: Json)
    requires OptionValue(x) == Value(head)
    requires forall i :: 0 <= i < |tail| ==> !tail[i].JNull?
    requires Includes(rest, v) <==>
               exists i :: 0 <= i < |tail| && StrictEquals(OptionValue(tail[i]).value, Some(v))
    ensures var items := [x] + tail;
            var r := if head.Some? then [head.value] + rest else rest;
            Includes(r, v) <==> exists i :: 0 <= i < |items| && StrictEquals(OptionValue(items[i]).value, Some(v))
  {
    SkillValuesStepFound(x, tail, head, rest, v);
    SkillValuesStepListed(x, tail, head, rest, v);
  }

  /** A value the step lists is the value of one of the options. */
  lemma SkillValuesStepFound(x: Json, tail: seq<Json>, head: Option<Json>, rest: seq<Json>, v: Json)
    requires OptionValue(x) == Value(head)
    requires forall i :: 0 <= i < |tail| ==> !tail[i].JNull?
    requires Includes(rest, v) ==>
               exists i :: 0 <= i < |tail| && StrictEquals(OptionValue(tail[i]).value, Some(v))
    ensures var items := [x] + tail;
            var r := if head.Some? then [head.value] + rest else rest;
            Includes(r, v) ==> exists i :: 0 <= i < |items| && StrictEquals(OptionValue(items[i]).value, Some(v))
  {
    var items := [x] + tail;
    var r := if head.Some? then [head.value] + rest else rest;
    if Includes(r, v) {
      var j :| 0 <= j < |r| && StrictEquals(Some(r[j]), Some(v));
      if head.Some? && j == 0 {
        assert StrictEquals(OptionValue(items[0]).value, Some(v));
      } else {
        var j' := if head.Some? then j - 1 else j;
        assert rest[j'] == r[j];
        assert StrictEquals(Some(rest[j']), Some(v));
        var i :| 0 <= i < |tail| && StrictEquals(OptionValue(tail[i]).value, Some(v));
        assert items[i + 1] == tail[i];
      }
    }
  }

  /** The value of any option is listed by the step. */
  lemma SkillValuesStepListed(x: Json, tail: seq<Json>, head: Option<Json>, rest: seq<Json>, v: Json)
    requires OptionValue(x) == Value(head)
    requires forall i :: 0 <= i < |tail| ==> !tail[i].JNull?
    requires (exists i :: 0 <= i < |tail| && StrictEquals(OptionValue(tail[i]).value, Some(v))) ==>
               Includes(rest, v)
    ensures var items := [x] + tail;
            var r := if head.Some? then [head.value] + rest else rest;
            (exists i :: 0 <= i < |items| && StrictEquals(OptionValue(items[i]).value, Some(v))) ==> Includes(r, v)
  {
    var items := [x] + tail;
    var r := if head.Some? then [head.value] + rest else rest;
    if exists i :: 0 <= i < |items| && StrictEquals(OptionValue(items[i]).value, Some(v)) {
      var i :| 0 <= i < |items| && StrictEquals(OptionValue(items[i]).value, Some(v));
      if i == 0 {
        assert StrictEquals(Some(r[0]), Some(v));
      } else {
        assert tail[i - 1] == items[i];
        var j :| 0 <= j < |rest| && StrictEquals(Some(rest[j]), Some(v));
        var j' := if head.Some? then j + 1 else j;
        assert r[j'] == rest[j];
      }
    }
  }

  /** Sets or, for undefined, drops one property. */
  function WithProperty(o: Object, k: string, v: Option<Json>): (r: Object)
    ensures Get(r, k) == v
    ensures forall k' :: k' != k ==> Get(r, k') == Get(o, k')
  {
    if v.Some? then o[k := v.value] else o - {k}
  }

  /** `{ value: volunteer.id, label: volunteer.fullName }`; an undefined property is an absent key,
      which the page reads the same way. */
  function VolunteerOption(u: Object): (o: Json)
    ensures o.JObj? && o.fields.Keys <= {"value", "label"}
    ensures Get(o.fields, "value") == Get(u, "id") && Get(o.fields, "label") == Get(u, "fullName")
  {
    JObj(WithProperty(WithProperty(map[], "value", Get(u, "id")), "label", Get(u, "fullName")))
  }

  /** `.map(volunteer => ({ value: volunteer.id, label: volunteer.fullName }))`. */
  function Options(us: seq<Object>): (r: seq<Json>)
    ensures |r| == |us| && forall i :: 0 <= i < |us| ==> r[i] == VolunteerOption(us[i])
  {
    seq(|us|, i requires 0 <= i < |us| => VolunteerOption(us[i]))
  }

  /** A volunteer whose `skills` is not an array makes `user.skills.some` throw. */
  predicate VolunteerWithoutSkills(users: seq<Object>) {
    exists i :: 0 <= i < |users| && HasRole(users[i], "volunteer") && SkillArray(users[i]).None?
  }

  /** The roster the three copies of the matching code compute (lines 140-149, 195-205 and
      247-256): the options of the users with role "volunteer" sharing a skill with the required
      values, in table order; TypeError when `requiredSkills` is not an array, holds null, or a
      volunteer has no skill array. */
  function Roster(users: seq<Object>, requiredSkills: Option<Json>): (r: Result<seq<Json>>)
    ensures r.Value? <==> requiredSkills.Some? && requiredSkills.value.JArr?
                          && SkillValues(requiredSkills.value.items).Value? && !VolunteerWithoutSkills(users)
    ensures r.Value? ==> r.value == Options(Matching(users, "volunteer", SkillValues(requiredSkills.value.items).value))
  {
    match requiredSkills
    case Some(JArr(items)) =>
      (match SkillValues(items)
       case TypeError => TypeError
       case Value(wanted) =>
         if VolunteerWithoutSkills(users) then TypeError
         else Value(Options(Matching(users, "volunteer", wanted))))
    case _ => TypeError
  }

  /** Every entry of a roster is the option of a volunteer of the table sharing a skill with the
      event, and no such volunteer is missing. */
  lemma RosterIsExact(users: seq<Object>, requiredSkills: seq<Json>, wanted: seq<Json>, r: seq<Json>)
    requires SkillValues(requiredSkills) == Value(wanted)
    requires Roster(users, Some(JArr(requiredSkills))) == Value(r)
    ensures forall k :: 0 <= k < |r| ==> exists u :: u in users && Qualifies(u, "volunteer", wanted) && r[k] == VolunteerOption(u)
    ensures forall u :: u in users && Qualifies(u, "volunteer", wanted) ==> VolunteerOption(u) in r
  {
    var m := Matching(users, "volunteer", wanted);
    assert r == Options(m);
    forall k | 0 <= k < |r|
      ensures exists u :: u in users && Qualifies(u, "volunteer", wanted) && r[k] == VolunteerOption(u)
    {
      assert m[k] in m;
      assert m[k] in users && Qualifies(m[k], "volunteer", wanted) && r[k] == VolunteerOption(m[k]);
    }
    forall u | u in users && Qualifies(u, "volunteer", wanted)
      ensures VolunteerOption(u) in r
    {
      assert u in m;
      var k :| 0 <= k < |m| && m[k] == u;
      assert r[k] == VolunteerOption(u);
    }
  }

  /** `volunteerMatch` and `findMatchedVols`: the roster, with a failed fetch or a thrown error
      caught and answered by []. */
  function CaughtRoster(users: Option<seq<Object>>, requiredSkills: Option<Json>): (r: seq<Json>)
    ensures users.None? ==> r == []
    ensures users.Some? && Roster(users.value, requiredSkills).Value? ==> r == Roster(users.value, requiredSkills).value
    ensures users.Some? && Roster(users.value, requiredSkills).TypeError? ==> r == []
    ensures requiredSkills == Some(JArr([])) ==> r == []
  {
    if users.None? then []
    else
      match Roster(users.value, requiredSkills)
      case TypeError => []
      case Value(m) => m
  }

  // ---------------------------------------------------------------- creating an event

  /** What `handleCreateEvent` does before the server answers: alert the first failing guard,
      or post the request body. */
  datatype CreateStep = Alert(message: string) | Post(body: Object)

  /** `{ ...eventDetails, date: dateFormatted, matchedVolunteers }`. */
  function RequestBody(d: EventDetails, matched: seq<Json>): (body: Object)
    ensures Get(body, "name") == Some(JStr(d.name)) && Get(body, "location") == Some(JStr(d.location))
    ensures Get(body, "envoy") == Some(JStr(d.envoy)) && Get(body, "requiredSkills") == Some(JArr(d.requiredSkills))
    ensures Get(body, "urgencyLevel") == Some(JStr(d.urgencyLevel)) && Get(body, "manager") == Some(JStr(d.manager))
    ensures Get(body, "date") == Some(JStr(DateString(d.date)))
    ensures Get(body, "matchedVolunteers") == Some(JArr(matched))
    ensures Get(body, "selectedVolunteers") == Some(JArr(d.selectedVolunteers))
    ensures body.Keys == {"name", "location", "envoy", "requiredSkills", "urgencyLevel", "date", "manager",
                          "selectedVolunteers", "matchedVolunteers"}
  {
    map["name" := JStr(d.name), "location" := JStr(d.location), "envoy" := JStr(d.envoy),
        "requiredSkills" := JArr(d.requiredSkills), "urgencyLevel" := JStr(d.urgencyLevel),
        "date" := JStr(DateString(d.date)), "manager" := JStr(d.manager),
        "selectedVolunteers" := JArr(d.selectedVolunteers), "matchedVolunteers" := JArr(matched)]
  }

  /** `handleCreateEvent` up to the POST; `users` is what `findMatchedVols` fetches. */
  function CreateRequest(d: EventDetails, users: Option<seq<Object>>): (r: CreateStep)
    ensures r.Alert? <==> FirstFailure(CreateChecks(d)).Some?
    ensures r.Alert? ==> r.message == FirstFailure(CreateChecks(d)).value
    ensures r.Post? ==> r.body == RequestBody(d, CaughtRoster(users, Some(JArr(d.requiredSkills))))
  {
    match FirstFailure(CreateChecks(d))
    case Some(message) => Alert(message)
    case None => Post(RequestBody(d, CaughtRoster(users, Some(JArr(d.requiredSkills)))))
  }

  /** A body carrying the form's texts, non-empty where the guards demand it, passes the server's
      all-fields-present test exactly when the envoy text is non-empty. */
  lemma FieldsPresentIffEnvoy(body: Object, d: EventDetails)
    requires Get(body, "name") == Some(JStr(d.name)) && Get(body, "location") == Some(JStr(d.location))
    requires Get(body, "envoy") == Some(JStr(d.envoy)) && Get(body, "requiredSkills") == Some(JArr(d.requiredSkills))
    requires Get(body, "urgencyLevel") == Some(JStr(d.urgencyLevel)) && Get(body, "manager") == Some(JStr(d.manager))
    requires Get(body, "date") == Some(JStr(DateString(d.date)))
    requires d.name != "" && d.location != "" && d.manager != "" && d.urgencyLevel != ""
    ensures Records.EventFieldsPresent(body) <==> d.envoy != ""
  {
    var cs := Records.EventFieldChecks(body);
    assert cs[0] && cs[1] && cs[3] && cs[4] && cs[5] && cs[6];
    assert cs[2] == (d.envoy != "");
  }

  /** A body the page posts passes the server's all-fields-present test exactly when the envoy text
      is non-empty: the page never checks the envoy, the server does. */
  lemma PostedBodyMeetsServerCheck(d: EventDetails, users: Option<seq<Object>>)
    requires CreateRequest(d, users).Post?
    ensures Records.EventFieldsPresent(CreateRequest(d, users).body) <==> d.envoy != ""
  {
    CreateChecksPass(d);
    FieldsPresentIffEnvoy(CreateRequest(d, users).body, d);
  }

  /** After a successful POST: the created event, with the roster fetched for it and nothing
      selected, is appended and the form reset. `created` is the server's answer (None when the
      request failed), `users` the second user fetch. */
  function AfterCreate(events: seq<Object>, d: EventDetails, created: Option<Object>, users: Option<seq<Object>>,
                       today: Date): (r: (seq<Object>, EventDetails))
    ensures created.None? ==> r == (events, d)
    ensures created.Some? ==> |r.0| == |events| + 1 && r.0[..|events|] == events && r.1 == InitialDetails(today)
    ensures created.Some? ==>
              var e := r.0[|events|];
              Get(e, "selectedVolunteers") == Some(JArr([]))
              && Get(e, "matchedVolunteers") == Some(JArr(CaughtRoster(users, Get(created.value, "requiredSkills"))))
              && forall k :: k != "selectedVolunteers" && k != "matchedVolunteers" ==> Get(e, k) == Get(created.value, k)
  {
    if created.None? then (events, d)
    else
      var e := created.value + map["matchedVolunteers" := JArr(CaughtRoster(users, Get(created.value, "requiredSkills"))),
                                   "selectedVolunteers" := JArr([])];
      (events + [e], InitialDetails(today))
  }

  // ---------------------------------------------------------------- updating the event list

  /** `events.map(e => e.id === id ? { ...e, ...patch } : e)`. */
  function UpdateWhere(events: seq<Object>, id: Option<Json>, patch: Object): (r: seq<Object>)
    ensures |r| == |events|
    ensures forall i :: 0 <= i < |events| && !StrictEquals(Get(events[i], "id"), id) ==> r[i] == events[i]
    ensures forall i :: 0 <= i < |events| && StrictEquals(Get(events[i], "id"), id) ==> r[i] == events[i] + patch
  {
    seq(|events|, i requires 0 <= i < |events| =>
      if StrictEquals(Get(events[i], "id"), id) then events[i] + patch else events[i])
  }

  /** The two keys `handleMatchVolunteers` sets: the roster, offered and auto-selected. */
  function RosterPatch(m: seq<Json>): (patch: Object)
    ensures Get(patch, "matchedVolunteers") == Get(patch, "selectedVolunteers") == Some(JArr(m))
    ensures patch.Keys == {"matchedVolunteers", "selectedVolunteers"}
  {
    map["matchedVolunteers" := JArr(m), "selectedVolunteers" := JArr(m)]
  }

  /** `handleMatchVolunteers(eventId)`: the roster of the first event whose `EventID` is `eventId`,
      stored on every event whose `id` is `eventId`. A failed user fetch, no such event, or an
      error thrown while matching leaves the list as it was. */
  function HandleMatchVolunteers(events: seq<Object>, users: Option<seq<Object>>, eventId: Option<Json>): (r: seq<Object>)
    ensures |r| == |events|
    ensures users.None? ==> r == events
    ensures FindIndex(events, (e: Object) => StrictEquals(Get(e, "EventID"), eventId)) == -1 ==> r == events
    ensures forall i :: 0 <= i < |events| && !StrictEquals(Get(events[i], "id"), eventId) ==> r[i] == events[i]
    ensures forall i :: 0 <= i < |events| && r[i] != events[i] ==>
              Get(r[i], "matchedVolunteers") == Get(r[i], "selectedVolunteers")
              && forall k :: k != "matchedVolunteers" && k != "selectedVolunteers" ==> Get(r[i], k) == Get(events[i], k)
    ensures users.Some? ==>
              var k := FindIndex(events, (e: Object) => StrictEquals(Get(e, "EventID"), eventId));
              k != -1 ==>
                match Roster(users.value, Get(events[k], "requiredSkills"))
                case TypeError => r == events
                case Value(m) =>
                  forall i :: 0 <= i < |events| && StrictEquals(Get(events[i], "id"), eventId) ==>
                    Get(r[i], "matchedVolunteers") == Some(JArr(m)) && Get(r[i], "selectedVolunteers") == Some(JArr(m))
  {
    if users.None? then events
    else
      var k := FindIndex(events, (e: Object) => StrictEquals(Get(e, "EventID"), eventId));
      if k == -1 then events
      else
        match Roster(users.value, Get(events[k], "requiredSkills"))
        case TypeError => events
        case Value(m) => UpdateWhere(events, eventId, RosterPatch(m))
  }

  /** The multi-select's `onChange` on an event's card: every event whose `id` is that card's
      `EventID` gets the selection as it comes, null included. */
  function SelectVolunteers(events: seq<Object>, eventId: Option<Json>, selected: Json): (r: seq<Object>)
    ensures |r| == |events|
    ensures forall i :: 0 <= i < |events| && !StrictEquals(Get(events[i], "id"), eventId) ==> r[i] == events[i]
    ensures forall i :: 0 <= i < |events| && StrictEquals(Get(events[i], "id"), eventId) ==>
              Get(r[i], "selectedVolunteers") == Some(selected)
              && forall k :: k != "selectedVolunteers" ==> Get(r[i], k) == Get(events[i], k)
  {
    UpdateWhere(events, eventId, map["selectedVolunteers" := selected])
  }

  /** The cards pass `EventID`, the rows the server lists carry it, while the two updates compare
      it with `id`: on a list of server rows, which carry no `id`, a defined `EventID` changes
      nothing. */
  lemma ServerRowsNeverUpdated(events: seq<Object>, users: Option<seq<Object>>, eventId: Option<Json>, selected: Json)
    requires eventId.Some?
    requires forall i :: 0 <= i < |events| ==> "id" !in events[i]
    ensures HandleMatchVolunteers(events, users, eventId) == events
    ensures SelectVolunteers(events, eventId, selected) == events
  {
  }

  /** The events the page itself created carry `id` but no `EventID`: their cards pass undefined,
      which then matches every event lacking `id`, that is every server row, and no created one. */
  lemma UndefinedIdSelectsServerRows(events: seq<Object>, selected: Json)
    ensures var r := SelectVolunteers(events, None, selected);
            forall i :: 0 <= i < |events| ==>
              ("id" in events[i] ==> r[i] == events[i])
              && ("id" !in events[i] ==> Get(r[i], "selectedVolunteers") == Some(selected))
  {
  }
}
