/** The Express server of `backend/server.js`. Its user table holds the rows last read from the
    `logininfo` table and its event list the events last read from `eventlist` plus those created
    since; both are plain objects. The database reads arrive as arguments, the database writes are
    not part of this model. */
module BackendServer {
  import opened JsCore
  import opened JsArray
  import opened JsText
  import Records
  import opened JsonRows

  /** `matchVolunteers(event)`: the volunteers sharing a skill with the event, in table order.
      `volunteer.skills.some` throws for a volunteer without a skill array, whatever the event. */
  function MatchVolunteers(users: seq<Object>, requiredSkills: seq<Json>): (r: Result<seq<Object>>)
    ensures r.TypeError? <==> exists i :: 0 <= i < |users| && HasRole(users[i], "Volunteer") && SkillArray(users[i]).None?
    ensures r.Value? ==> r.value == Matching(users, "Volunteer", requiredSkills)
  {
    var isVolunteer := (u: Object) => HasRole(u, "Volunteer");
    var volunteers := Filter(users, isVolunteer);
    if exists i :: 0 <= i < |volunteers| && SkillArray(volunteers[i]).None? then
      assert exists i :: 0 <= i < |users| && HasRole(users[i], "Volunteer") && SkillArray(users[i]).None? by {
        var i :| 0 <= i < |volunteers| && SkillArray(volunteers[i]).None?;
        assert volunteers[i] in users;
      }
      TypeError
    else
      assert forall i :: 0 <= i < |users| && HasRole(users[i], "Volunteer") ==> SkillArray(users[i]).Some? by {
        forall i | 0 <= i < |users| && HasRole(users[i], "Volunteer") ensures SkillArray(users[i]).Some? {
          assert users[i] in volunteers;
        }
      }
      var sharesSkill := (v: Object) => SkillArray(v).Some? && SharesElement(SkillArray(v).value, requiredSkills);
      var both := (u: Object) => isVolunteer(u) && sharesSkill(u);
      FilterThenFilter(users, isVolunteer, sharesSkill, both);
      FilterIsMatching(users, "Volunteer", requiredSkills, both);
      Value(Filter(volunteers, sharesSkill))
  }

  /** The test of the match route, `user.role === "Volunteer" && requiredSkills.some(skill =>
      user.skills.includes(skill))`, for a user whose test does not throw. */
  predicate RouteTest(u: Object, requiredSkills: seq<Json>) {
    HasRole(u, "Volunteer") && SkillArray(u).Some? && SharesElement(requiredSkills, SkillArray(u).value)
  }

  /** The route's phrasing of the test, required skill first, is the matching test. */
  lemma RouteTestIsQualifies(u: Object, requiredSkills: seq<Json>)
    ensures RouteTest(u, requiredSkills) == Qualifies(u, "Volunteer", requiredSkills)
  {
    if SkillArray(u).Some? {
      SharesElementSymmetric(requiredSkills, SkillArray(u).value);
    }
  }

  /** `users.filter(user => user.UserRole === 'Volunteer')` of `GET /api/volunteers`. */
  function Volunteers(users: seq<Object>): (r: seq<Object>)
    ensures forall u :: u in r <==> u in users && Get(u, "UserRole") == Some(JStr("Volunteer"))
  {
    Filter(users, (u: Object) => Get(u, "UserRole") == Some(JStr("Volunteer")))
  }

  /** The volunteer listing keeps table order: listing a longer table extends the listing of its
      prefix, and listing a listing changes nothing. */
  lemma VolunteersOrder(a: seq<Object>, b: seq<Object>)
    ensures Volunteers(a + b) == Volunteers(a) + Volunteers(b)
    ensures Volunteers(Volunteers(a)) == Volunteers(a)
  {
    var p := (u: Object) => Get(u, "UserRole") == Some(JStr("Volunteer"));
    FilterAppend(a, b, p);
    FilterIdempotent(a, p);
  }

  /** `event.EventStatus == "In Progress"`; the status column is text, so the loose comparison is
      a string comparison. */
  predicate InProgress(e: Object) {
    Get(e, "EventStatus") == Some(JStr("In Progress"))
  }

  /** The filter of `GET /api/events`. */
  function CurrentEvents(events: seq<Object>): (r: seq<Object>)
    ensures forall e :: e in r <==> e in events && InProgress(e)
  {
    Filter(events, InProgress)
  }

  /** The current-event listing keeps list order and is idempotent; with no event in progress it
      is empty. */
  lemma CurrentEventsOrder(a: seq<Object>, b: seq<Object>)
    ensures CurrentEvents(a + b) == CurrentEvents(a) + CurrentEvents(b)
    ensures CurrentEvents(CurrentEvents(a)) == CurrentEvents(a)
    ensures (forall i :: 0 <= i < |a| ==> !InProgress(a[i])) ==> CurrentEvents(a) == []
  {
    FilterAppend(a, b, InProgress);
    FilterIdempotent(a, InProgress);
    if CurrentEvents(a) != [] {
      assert CurrentEvents(a)[0] in a;
    }
  }

  /** The login guard, run after the user table is reloaded: the email is checked before the
      password (the opposite order to the root server). None lets the request through to the
      database. */
  function LoginFieldCheck(email: Option<Json>, password: Option<Json>): (r: Option<Reply<()>>)
    ensures !Truthy(email) <==> r == Some(Fail(400, "Email is required"))
    ensures Truthy(email) && !Truthy(password) <==> r == Some(Fail(400, "Password is required"))
    ensures r.None? <==> Truthy(email) && Truthy(password)
  {
    if !Truthy(email) then Some(Fail(400, "Email is required"))
    else if !Truthy(password) then Some(Fail(400, "Password is required"))
    else None
  }

  /** `requireAuth` and the role test of `GET /api/admin/profile`: only a session whose role is
      "Manager" reaches the database. */
  function AdminGate(session: Option<Object>): (r: Option<Reply<()>>)
    ensures session.None? <==> r == Some(Fail(401, "Unauthorized: Please log in"))
    ensures r.None? <==> session.Some? && Get(session.value, "role") == Some(JStr("Manager"))
    ensures r.Some? && session.Some? ==> r == Some(Fail(403, "Access denied: Admins only"))
  {
    if session.None? then Some(Fail(401, "Unauthorized: Please log in"))
    else if Get(session.value, "role") != Some(JStr("Manager")) then Some(Fail(403, "Access denied: Admins only"))
    else None
  }

  /** `{ ...a, ...b }`: every key of either object, with `b`'s value where both have one. */
  function Merge(a: Object, b: Object): (r: Object)
    ensures r.Keys == a.Keys + b.Keys
    ensures forall k :: k in b ==> r[k] == b[k]
    ensures forall k :: k in a && k !in b ==> r[k] == a[k]
  {
    a + b
  }

  /** Merging the same body twice is merging it once, and an empty body changes nothing. */
  lemma MergeLaws(a: Object, b: Object)
    ensures Merge(Merge(a, b), b) == Merge(a, b)
    ensures Merge(a, map[]) == a
  {
  }

  /** The loop `for (let skill of requiredSkills) ... skill.value` of `POST /api/events` throws
      when the value is not iterable or one of its elements is null. Strings iterate by character
      and never throw. */
  predicate SkillLoopThrows(requiredSkills: Json) {
    match requiredSkills
    case JArr(items) => exists i :: 0 <= i < |items| && items[i] == JNull
    case JStr(_) => false
    case _ => true
  }

  /** The record `POST /api/events` appends: the body's seven fields under the database id, and
      empty volunteer lists. */
  function NewEvent(id: int, body: Object): (e: Object)
    requires Records.EventFieldsPresent(body)
    ensures e.Keys == {"id", "name", "location", "envoy", "requiredSkills", "urgencyLevel", "date", "manager",
                       "matchedVolunteers", "selectedVolunteers"}
    ensures Get(e, "id") == Some(JNum(id))
    ensures e["matchedVolunteers"] == JArr([]) && e["selectedVolunteers"] == JArr([])
    ensures forall k :: k in {"name", "location", "envoy", "requiredSkills", "urgencyLevel", "date", "manager"} ==>
              k in body && e[k] == body[k]
  {
    assert Records.EventFieldChecks(body)[0] && Records.EventFieldChecks(body)[1] && Records.EventFieldChecks(body)[2];
    assert Records.EventFieldChecks(body)[3] && Records.EventFieldChecks(body)[4] && Records.EventFieldChecks(body)[5];
    assert Records.EventFieldChecks(body)[6];
    map["id" := JNum(id), "name" := body["name"], "location" := body["location"], "envoy" := body["envoy"],
        "requiredSkills" := body["requiredSkills"], "urgencyLevel" := body["urgencyLevel"], "date" := body["date"],
        "manager" := body["manager"], "matchedVolunteers" := JArr([]), "selectedVolunteers" := JArr([])]
  }

  /** `events.findIndex(event => event.id === eventId)`; `eventId` is None for NaN, which equals
      nothing. */
  function EventIndex(events: seq<Object>, eventId: Option<int>): (k: int)
    ensures -1 <= k < |events|
    ensures k == -1 <==> eventId.None? || forall i :: 0 <= i < |events| ==> Get(events[i], "id") != Some(JNum(eventId.value))
    ensures k >= 0 ==> eventId.Some? && Get(events[k], "id") == Some(JNum(eventId.value))
                       && forall i :: 0 <= i < k ==> Get(events[i], "id") != Some(JNum(eventId.value))
  {
    if eventId.None? then -1 else FindIndex(events, (e: Object) => Get(e, "id") == Some(JNum(eventId.value)))
  }

  /** The columns `PUT /api/profile/:id` assigns. */
  const ProfileColumns: set<string> :=
    {"FullName", "AddressLine", "AddressLine2", "City", "State", "ZipCode", "Preferences", "skills", "availability"}

  /** `v !== undefined ? v : user[key] || ""` for a text column. */
  function TextOr(u: Object, key: string, v: Option<string>): (r: Json)
    ensures v.Some? ==> r == JStr(v.value)
    ensures v.None? && Truthy(Get(u, key)) ==> r == u[key]
    ensures v.None? && !Truthy(Get(u, key)) ==> r == JStr("")
  {
    if v.Some? then JStr(v.value) else if Truthy(Get(u, key)) then u[key] else JStr("")
  }

  /** `user[key] = v !== undefined ? v : user[key]`: an absent value leaves the row as it is. */
  function KeepColumn(u: Object, key: string, v: Option<string>): (r: Object)
    ensures v.Some? ==> r == u[key := JStr(v.value)]
    ensures v.None? ==> r == u
  {
    if v.Some? then u[key := JStr(v.value)] else u
  }

  /** A list of strings as a JSON array. */
  function StringArray(xs: seq<string>): (r: Json)
    ensures r.JArr? && |r.items| == |xs|
    ensures forall i :: 0 <= i < |xs| ==> r.items[i] == JStr(xs[i])
  {
    if xs == [] then JArr([]) else JArr([JStr(xs[0])] + StringArray(xs[1..]).items)
  }

  /** The nine assignments of `PUT /api/profile/:id` on a row, for a body whose skills and
      availability are arrays (otherwise the handler has thrown before it gets here): full name
      and first address line are replaced only when sent, the other text columns fall back to
      the stored value or "", the two lists are the body's, and no other column changes. */
  function MergeRow(u: Object, b: Records.ProfileBody): (r: Object)
    requires b.skills.Some? && b.availability.Some?
    ensures Get(r, "skills") == Some(StringArray(b.skills.value))
    ensures Get(r, "availability") == Some(StringArray(b.availability.value))
    ensures forall k :: k !in ProfileColumns ==> Get(r, k) == Get(u, k)
  {
    var named := KeepColumn(KeepColumn(u, "FullName", b.fullName), "AddressLine", b.address1);
    named + map["AddressLine2" := TextOr(u, "AddressLine2", b.address2),
                "City" := TextOr(u, "City", b.city),
                "State" := TextOr(u, "State", b.state),
                "ZipCode" := TextOr(u, "ZipCode", b.zipCode),
                "Preferences" := TextOr(u, "Preferences", b.preferences),
                "skills" := StringArray(b.skills.value),
                "availability" := StringArray(b.availability.value)]
  }

  /** `user.skills.includes(skill)` on a skill list that has an `includes` method: strict
      membership for an array, substring search on the skill's text for a string. */
  predicate SkillsInclude(skills: Json, skill: Json)
    requires skills.JArr? || skills.JStr?
  {
    if skills.JArr? then Includes(skills.items, skill) else ContainsText(skills.s, ToJsString(skill))
  }

  /** `u.skills` has an `includes` method: it is an array or a string. */
  predicate HasIncludes(u: Object) {
    "skills" in u && (u["skills"].JArr? || u["skills"].JStr?)
  }

  /** Evaluating the match route's test, `user.role === "Volunteer" && requiredSkills.some(skill =>
      user.skills.includes(skill))`, on `u` throws: the role test short-circuits for a user who is
      not a volunteer; otherwise `some` throws unless the skills are an array, and `includes`
      throws, on the first required skill, unless the user's skills are an array or a string. */
  predicate RouteTestThrows(u: Object, requiredSkills: Option<Json>) {
    HasRole(u, "Volunteer")
    && (!(requiredSkills.Some? && requiredSkills.value.JArr?)
        || (requiredSkills.value.items != [] && !HasIncludes(u)))
  }

  /** The match route's test, on a user on which it does not throw. */
  predicate RouteAccepts(u: Object, requiredSkills: Option<Json>) {
    HasRole(u, "Volunteer") && requiredSkills.Some? && requiredSkills.value.JArr? && HasIncludes(u)
    && exists i :: 0 <= i < |requiredSkills.value.items| && SkillsInclude(u["skills"], requiredSkills.value.items[i])
  }

  /** On a user whose skills are an array the route's test is the matching test. */
  lemma RouteAcceptsIsQualifies(u: Object, requiredSkills: seq<Json>)
    requires "skills" in u && u["skills"].JArr?
    ensures RouteAccepts(u, Some(JArr(requiredSkills))) == Qualifies(u, "Volunteer", requiredSkills)
  {
    RouteTestIsQualifies(u, requiredSkills);
  }

  class BackendApp {
    var users: Option<seq<Object>>
    var events: seq<Object>

    /** The server starts with `users` undefined, since nothing calls `init`, and no events. */
    constructor ()
      ensures users.None? && events == []
    {
      users := None;
      events := [];
    }

    /** `fetchUsers`: the table is replaced by the rows read, or kept when the read fails. */
    method ReloadUsers(rows: Option<seq<Object>>)
      modifies this
      ensures users == (if rows.Some? then rows else old(users)) && events == old(events)
    {
      if rows.Some? {
        users := rows;
      }
    }

    /** `GET /api/users`: the table is reloaded first, then sent as it now stands (undefined when
        no read has ever succeeded). */
    method ListUsers(rows: Option<seq<Object>>) returns (r: Option<seq<Object>>)
      modifies this
      ensures users == (if rows.Some? then rows else old(users)) && events == old(events)
      ensures r == users
    {
      ReloadUsers(rows);
      r := users;
    }

    /** `POST /api/login` up to the database query: the table is reloaded first, then the two
        fields are checked. */
    method Login(rows: Option<seq<Object>>, email: Option<Json>, password: Option<Json>) returns (r: Option<Reply<()>>)
      modifies this
      ensures users == (if rows.Some? then rows else old(users)) && events == old(events)
      ensures r == LoginFieldCheck(email, password)
    {
      ReloadUsers(rows);
      r := LoginFieldCheck(email, password);
    }

    /** `GET /api/users/:id`: the first row whose `UserID` is the id; `find` throws while the table
        is undefined. */
    function GetUser(userId: Option<int>): (r: Reply<Object>)
      reads this
      ensures users.None? <==> r.Threw?
      ensures users.Some? && (userId.None? || forall i :: 0 <= i < |users.value| ==> Get(users.value[i], "UserID") != Some(JNum(userId.value)))
              <==> r == Fail(404, "User not found")
      ensures r.Done? ==>
                r.status == 200 && users.Some? && userId.Some? &&
                exists k :: 0 <= k < |users.value| && Get(users.value[k], "UserID") == Some(JNum(userId.value))
                            && (forall i :: 0 <= i < k ==> Get(users.value[i], "UserID") != Some(JNum(userId.value)))
                            && r.payload == users.value[k]
    {
      if users.None? then Threw
      else if userId.None? then Fail(404, "User not found")
      else
        var k := FindIndex(users.value, (u: Object) => Get(u, "UserID") == Some(JNum(userId.value)));
        if k == -1 then Fail(404, "User not found") else Done(200, "", users.value[k])
    }

    /** `GET /api/volunteers`: the rows whose `UserRole` is "Volunteer"; `filter` throws while
        the table is undefined. */
    function VolunteerListing(): (r: Reply<seq<Object>>)
      reads this
      ensures users.None? <==> r.Threw?
      ensures !r.Fail?
      ensures r.Done? ==> r.status == 200 && r.payload == Volunteers(users.value)
    {
      if users.None? then Threw else Done(200, "", Volunteers(users.value))
    }

    /** `GET /api/events`: `fetchEvents` replaces the list (or keeps it when the read fails), and the
        events in progress are answered. */
    method ListEvents(fetched: Option<seq<Object>>) returns (r: seq<Object>)
      modifies this
      ensures events == (if fetched.Some? then fetched.value else old(events)) && users == old(users)
      ensures r == CurrentEvents(events)
    {
      if fetched.Some? {
        events := fetched.value;
      }
      r := CurrentEvents(events);
    }

    /** `POST /api/events`: a body missing one of seven fields is refused and nothing is stored;
        otherwise, once the database gave the id, one event is appended, unless the skill loop
        throws first. */
    method CreateEvent(body: Object, insertId: int) returns (r: Reply<Object>)
      modifies this
      ensures users == old(users)
      ensures !Records.EventFieldsPresent(body) <==> r == Fail(400, "Required fields are missing")
      ensures Records.EventFieldsPresent(body) && "requiredSkills" in body && SkillLoopThrows(body["requiredSkills"]) <==> r.Threw?
      ensures Records.EventFieldsPresent(body) && "requiredSkills" in body && !SkillLoopThrows(body["requiredSkills"]) ==>
                r == Done(201, "", NewEvent(insertId, body))
      ensures !r.Done? ==> events == old(events)
      ensures r.Done? ==> r.status == 201 && Records.EventFieldsPresent(body)
                          && r.payload == NewEvent(insertId, body) && events == old(events) + [r.payload]
    {
      if !Records.EventFieldsPresent(body) {
        return Fail(400, "Required fields are missing");
      }
      assert Records.EventFieldChecks(body)[3];
      if SkillLoopThrows(body["requiredSkills"]) {
        return Threw;
      }
      var newEvent := NewEvent(insertId, body);
      events := events + [newEvent];
      r := Done(201, "", newEvent);
    }

    /** `PUT /api/events/:id`: the first event with that id becomes its shallow merge with the
        body; the list keeps its length and every other event. */
    method UpdateEvent(eventId: Option<int>, body: Object) returns (r: Reply<Object>)
      modifies this
      ensures users == old(users)
      ensures EventIndex(old(events), eventId) == -1 <==> r == Fail(404, "Event not found")
      ensures EventIndex(old(events), eventId) >= 0 ==> r.Done?
      ensures r.Fail? ==> events == old(events)
      ensures r.Done? ==>
                var k := EventIndex(old(events), eventId);
                k >= 0 && r.status == 200 && r.payload == Merge(old(events)[k], body)
                && events == old(events)[k := r.payload]
      ensures !r.Threw?
    {
      var k := EventIndex(events, eventId);
      if k == -1 {
        return Fail(404, "Event not found");
      }
      var updated := Merge(events[k], body);
      events := events[k := updated];
      r := Done(200, "", updated);
    }

    /** `POST /api/events/match-volunteers/:eventId`: the event must exist; then the route's test
        runs over the table in order, and the first user on which it throws makes the handler
        throw. */
    function MatchRoute(eventId: Option<int>): (r: Reply<seq<Object>>)
      reads this
      ensures EventIndex(events, eventId) == -1 <==> r == Fail(404, "Event not found.")
      ensures EventIndex(events, eventId) >= 0 ==>
                var skills := Get(events[EventIndex(events, eventId)], "requiredSkills");
                (r.Threw? <==> users.None? || exists i :: 0 <= i < |users.value| && RouteTestThrows(users.value[i], skills))
                && (r.Done? <==> users.Some? && forall i :: 0 <= i < |users.value| ==> !RouteTestThrows(users.value[i], skills))
      ensures r.Done? ==>
                var skills := Get(events[EventIndex(events, eventId)], "requiredSkills");
                users.Some? && r.status == 200 && r.message == "" && |r.payload| <= |users.value|
                && (forall u :: u in r.payload <==> u in users.value && RouteAccepts(u, skills))
                && (!(skills.Some? && skills.value.JArr?) ==> r.payload == [])
                && ((forall i :: 0 <= i < |users.value| ==> !HasRole(users.value[i], "Volunteer")) ==> r.payload == [])
                && (skills.Some? && skills.value.JArr? && (forall i :: 0 <= i < |users.value| ==> !HasRole(users.value[i], "Volunteer") || SkillArray(users.value[i]).Some?)
                    ==> r.payload == Matching(users.value, "Volunteer", skills.value.items))
    {
      var k := EventIndex(events, eventId);
      if k == -1 then Fail(404, "Event not found.")
      else if users.None? then Threw
      else
        var skills := Get(events[k], "requiredSkills");
        if exists i :: 0 <= i < |users.value| && RouteTestThrows(users.value[i], skills) then Threw
        else
          var test := (u: Object) => RouteAccepts(u, skills);
          var matched := Filter(users.value, test);
          RouteResultFacts(users.value, skills, test);
          Done(200, "", matched)
    }

    /** `PUT /api/profile/:id`. The skill and availability loops run before the lookup, so a body
        without either array throws whether or not the user exists; then `find` throws while the
        table is undefined; then an unknown id is refused; then the row's columns are merged with
        the body. */
    method UpdateProfile(userId: Option<int>, body: Records.ProfileBody) returns (r: Reply<Object>)
      modifies this
      ensures events == old(events)
      ensures body.skills.None? || body.availability.None? || old(users).None? <==> r.Threw?
      ensures !r.Done? ==> users == old(users)
      ensures body.skills.Some? && body.availability.Some? && old(users).Some?
              && (userId.None? || forall i :: 0 <= i < |old(users).value| ==> Get(old(users).value[i], "UserID") != Some(JNum(userId.value)))
              <==> r == Fail(404, "User not found")
      ensures r.Fail? ==> r == Fail(404, "User not found")
      ensures r.Done? ==>
                old(users).Some? && users.Some? &&
                exists k :: 0 <= k < |old(users).value| && userId.Some? && Get(old(users).value[k], "UserID") == Some(JNum(userId.value))
                            && (forall i :: 0 <= i < k ==> Get(old(users).value[i], "UserID") != Some(JNum(userId.value)))
                            && r == Done(200, "Profile updated successfully", MergeRow(old(users).value[k], body))
                            && users.value == old(users).value[k := r.payload]
    {
      if body.skills.None? || body.availability.None? {
        return Threw;
      }
      if users.None? {
        return Threw;
      }
      if userId.None? {
        return Fail(404, "User not found");
      }
      var rows := users.value;
      var k := FindIndex(rows, (u: Object) => Get(u, "UserID") == Some(JNum(userId.value)));
      if k == -1 {
        return Fail(404, "User not found");
      }
      var updated := MergeRow(rows[k], body);
      users := Some(rows[k := updated]);
      r := Done(200, "Profile updated successfully", updated);
    }
  }

  /** What the match route's filter yields once no user makes its test throw: the users it
      accepts, none when the skills are not an array, and the matching roster when every
      volunteer's skills are an array. */
  lemma RouteResultFacts(users: seq<Object>, skills: Option<Json>, test: Object -> bool)
    requires forall u: Object :: test(u) == RouteAccepts(u, skills)
    ensures !(skills.Some? && skills.value.JArr?) ==> Filter(users, test) == []
    ensures (forall i :: 0 <= i < |users| ==> !HasRole(users[i], "Volunteer")) ==> Filter(users, test) == []
    ensures skills.Some? && skills.value.JArr?
            && (forall i :: 0 <= i < |users| ==> !HasRole(users[i], "Volunteer") || SkillArray(users[i]).Some?)
            ==> Filter(users, test) == Matching(users, "Volunteer", skills.value.items)
  {
    if !(skills.Some? && skills.value.JArr?) || forall i :: 0 <= i < |users| ==> !HasRole(users[i], "Volunteer") {
      FilterNone(users, test);
    }
    if skills.Some? && skills.value.JArr?
       && forall i :: 0 <= i < |users| ==> !HasRole(users[i], "Volunteer") || SkillArray(users[i]).Some? {
      var required := skills.value.items;
      var both := (u: Object) => test(u) && (!HasRole(u, "Volunteer") || SkillArray(u).Some?);
      forall u: Object ensures both(u) == Qualifies(u, "Volunteer", required) {
        if SkillArray(u).Some? {
          RouteAcceptsIsQualifies(u, required);
        }
      }
      FilterAgrees(users, test, both);
      FilterIsMatching(users, "Volunteer", required, both);
    }
  }

  /** The rows the back end loads carry `UserRole`, not `role`, so the route's test stops at the
      role on every one of them: a found event is answered 200 with nobody, whatever its skills. */
  lemma LoadedRowsMatchNobody(app: BackendApp, eventId: Option<int>)
    requires app.users.Some? && forall i :: 0 <= i < |app.users.value| ==> "role" !in app.users.value[i]
    requires EventIndex(app.events, eventId) >= 0
    ensures app.MatchRoute(eventId) == Done(200, "", [])
  {
    var r := app.MatchRoute(eventId);
    assert r.Done? && r.status == 200 && r.message == "";
  }

  /** A volunteer whose skills are one string is matched by substring search: "Cooking, Sewing"
      meets a requirement of "Sewing", and nothing throws. */
  lemma StringSkillsMatchBySubstring()
    ensures var u := map["role" := JStr("Volunteer"), "skills" := JStr("Cooking, Sewing")];
            RouteAccepts(u, Some(JArr([JStr("Sewing")]))) && !RouteTestThrows(u, Some(JArr([JStr("Sewing")])))
  {
    var u := map["role" := JStr("Volunteer"), "skills" := JStr("Cooking, Sewing")];
    var required := Some(JArr([JStr("Sewing")]));
    assert ToJsString(JStr("Sewing")) == "Sewing";
    assert OccursAt("Cooking, Sewing", "Sewing", 9);
    assert SkillsInclude(u["skills"], required.value.items[0]);
  }

  /** Full name and first address line change only when the body sends them. */
  lemma MergeRowKeepsUnsent(u: Object, b: Records.ProfileBody)
    requires b.skills.Some? && b.availability.Some?
    ensures Get(MergeRow(u, b), "FullName") == if b.fullName.Some? then Some(JStr(b.fullName.value)) else Get(u, "FullName")
    ensures Get(MergeRow(u, b), "AddressLine") == if b.address1.Some? then Some(JStr(b.address1.value)) else Get(u, "AddressLine")
  {
  }

  /** The other text columns take the body's value when sent, and otherwise keep a truthy stored
      value or become "". */
  lemma MergeRowDefaults(u: Object, b: Records.ProfileBody)
    requires b.skills.Some? && b.availability.Some?
    ensures Get(MergeRow(u, b), "ZipCode") == Some(if b.zipCode.Some? then JStr(b.zipCode.value)
                                                   else if Truthy(Get(u, "ZipCode")) then u["ZipCode"] else JStr(""))
    ensures Get(MergeRow(u, b), "City") == Some(TextOr(u, "City", b.city))
    ensures Get(MergeRow(u, b), "State") == Some(TextOr(u, "State", b.state))
    ensures Get(MergeRow(u, b), "AddressLine2") == Some(TextOr(u, "AddressLine2", b.address2))
    ensures Get(MergeRow(u, b), "Preferences") == Some(TextOr(u, "Preferences", b.preferences))
  {
  }
}
