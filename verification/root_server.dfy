/** The root Express server (`server.js`): an in-memory table of user records and the route
    handlers that read and update it. MySQL, bcrypt and sessions are outside the model: the
    password hash and comparison are parameters, the session user is an argument and a result. */
module RootServer {
  import opened JsCore
  import opened JsArray
  import opened Records

  datatype RegisterBody = RegisterBody(
    fullName: Option<string>,
    email: Option<string>,
    password: Option<string>,
    role: Option<string>,
    skills: Option<seq<string>>)

  datatype LoginBody = LoginBody(email: Option<string>, password: Option<string>)

  /** The copy of a user kept in `req.session.user`. */
  datatype SessionUser = SessionUser(
    id: int,
    email: Option<string>,
    role: Option<string>,
    fullName: Option<string>,
    address1: Option<string>,
    address2: Option<string>,
    city: Option<string>,
    state: Option<string>,
    zip: Option<string>,
    skills: seq<string>,
    volunteerHistory: seq<HistoryEntry>,
    notifications: Json)

  /** The reply of `GET /api/admin/profile`. */
  datatype AdminView = AdminView(id: int, email: Option<string>, fullName: Option<string>, role: Option<string>)

  /** The only skill names `POST /api/events/:eventId/skills` accepts. */
  const ValidSkills: seq<string> :=
    ["First-Aid", "Animal Handling", "Cooking", "Sewing", "Communication", "Fundraising"]

  /** The session copy of a user: missing lists become empty ones. */
  function SessionOf(u: User): (s: SessionUser)
    ensures s.id == u.id && s.email == u.email && s.role == u.role && s.fullName == u.fullName
    ensures s.skills == u.skills.GetOr([]) && s.volunteerHistory == u.volunteerHistory.GetOr([])
    ensures s.notifications == if Truthy(u.notifications) then u.notifications.value else JArr([])
  {
    SessionUser(u.id, u.email, u.role, u.fullName, u.address1, u.address2, u.city, u.state, u.zip,
                u.skills.GetOr([]), u.volunteerHistory.GetOr([]),
                if Truthy(u.notifications) then u.notifications.value else JArr([]))
  }

  /** The hard-coded profiles the table starts with (before the background re-hashing of the
      passwords, which is not part of this model). */
  function SeedUsers(): seq<User> {
    var assignment := JObj(map[
      "notifID" := JNum(0), "eventID" := JNum(0), "eventName" := JStr("Cleaning the Beach"),
      "type" := JStr("Assignment"), "isCleared" := JBool(false), "isVisible" := JBool(true),
      "text" := JStr("You've been assigned to an event! What follows is the event details:")]);
    var charityRun := HistoryEntry(
      Some("Charity Run"), Some("To raise awareness and money for lesser-known diseases"),
      Some("18427 Southwest Fwy, Sugar Land, TX 77479"), Some("2024-06-15"), Some("Completed"),
      None, None, None, None, None, None);
    [ Account(1, "admin@example.com", "admin_123", "admin", "Admin"),
      Account(2, "johndoe@gmail.com", "admin_123", "admin", "John Doe"),
      User(3, Some("charlie@example.com"), "volunteer_123", Some("volunteer"), Some("Charlie Brown"),
           Some("1267 Main street"), Some(""), Some("Long Island"), Some("NY"), Some("88580"),
           Some(["First Aid", "Security"]), None, None, Some([]), Some(JArr([assignment]))),
      User(4, Some("alice@example.com"), "volunteer_123", Some("volunteer"), Some("Alice"),
           Some(""), Some(""), Some(""), Some(""), Some(""),
           Some(["First Aid", "Logistics"]), None, None, Some([charityRun]), Some(JArr([]))) ]
  }

  /** `users.some(user => user.email === email)`. */
  predicate EmailTaken(users: seq<User>, email: Option<string>) {
    Any(users, (u: User) => u.email == email)
  }

  /** The record `POST /api/register` appends: the role defaults to "volunteer" and the skills to
      [] when the body leaves them out; address, history and notifications are absent. */
  function NewUser(id: int, body: RegisterBody, hashedPassword: string): (u: User)
    ensures u.id == id && u.email == body.email && u.password == hashedPassword
    ensures u.role == Some(body.role.GetOr("volunteer")) && u.fullName == body.fullName
    ensures u.skills == Some(body.skills.GetOr([]))
    ensures u.volunteerHistory.None? && u.notifications.None? && u.address1.None?
  {
    User(id, body.email, hashedPassword, Some(body.role.GetOr("volunteer")), body.fullName,
         None, None, None, None, None, Some(body.skills.GetOr([])), None, None, None, None)
  }

  /** `requireAuth` followed by the role test of `GET /api/admin/profile`. */
  function AdminProfile(session: Option<SessionUser>): (r: Reply<AdminView>)
    ensures session.None? <==> r == Fail(401, "Unauthorized: Please log in")
    ensures session.Some? && session.value.role != Some("admin") <==> r == Fail(403, "Access denied: Admins only")
    ensures r.Done? <==> session.Some? && session.value.role == Some("admin")
    ensures r.Done? ==> r.status == 200 && r.payload.id == session.value.id && r.payload.role == Some("admin")
    ensures r.Done? ==> r.payload.email == session.value.email && r.payload.fullName == session.value.fullName
  {
    if session.None? then Fail(401, "Unauthorized: Please log in")
    else if session.value.role != Some("admin") then Fail(403, "Access denied: Admins only")
    else
      var u := session.value;
      Done(200, "", AdminView(u.id, u.email, u.fullName, u.role))
  }

  /** The guard of `POST /api/events/:eventId/skills`: None lets the request through to storage. */
  function CheckSkillName(skillName: Option<string>): (r: Option<Reply<()>>)
    ensures r.None? <==> skillName.Some? && skillName.value in ValidSkills
    ensures r.Some? ==> r.value == Fail(400, "Invalid skill name")
  {
    if skillName.Some? && skillName.value in ValidSkills then None else Some(Fail(400, "Invalid skill name"))
  }

  /** "First Aid", the spelling in the seed profiles and on the event form, is not on the list. */
  lemma FirstAidSpellingRejected()
    ensures CheckSkillName(Some("First Aid")) == Some(Fail(400, "Invalid skill name"))
    ensures CheckSkillName(Some("First-Aid")).None?
  {
    assert "First Aid" != "First-Aid";
  }

  /** The guard of `POST /api/events`: None lets the request through to storage. */
  function CheckEventFields(body: Object): (r: Option<Reply<()>>)
    ensures r.None? <==> EventFieldsPresent(body)
    ensures r.Some? ==> r.value == Fail(400, "Required fields are missing")
  {
    if EventFieldsPresent(body) then None else Some(Fail(400, "Required fields are missing"))
  }

  /** `matchVolunteers(event)`: the volunteers of the table that share a skill with the event,
      in table order; it throws when some volunteer has no skill list. */
  function MatchVolunteers(users: seq<User>, requiredSkills: seq<Json>): (r: Result<seq<User>>)
    ensures r.TypeError? <==> exists i :: 0 <= i < |users| && users[i].role == Some("volunteer") && users[i].skills.None?
    ensures r.Value? ==> r.value == MatchingUsers(users, "volunteer", requiredSkills)
    ensures r.Value? ==> forall u :: u in r.value <==> u in users && Qualifies(u, "volunteer", requiredSkills)
    ensures r.Value? && requiredSkills == [] ==> r.value == []
  {
    var isVolunteer := (u: User) => u.role == Some("volunteer");
    var volunteers := Filter(users, isVolunteer);
    if exists i :: 0 <= i < |volunteers| && volunteers[i].skills.None? then
      assert exists i :: 0 <= i < |users| && users[i].role == Some("volunteer") && users[i].skills.None? by {
        var i :| 0 <= i < |volunteers| && volunteers[i].skills.None?;
        assert volunteers[i] in users;
      }
      TypeError
    else
      var hasSkill := (v: User) => SkillsMeet(v.skills.GetOr([]), requiredSkills);
      assert forall i :: 0 <= i < |users| && users[i].role == Some("volunteer") ==> users[i].skills.Some? by {
        forall i | 0 <= i < |users| && users[i].role == Some("volunteer") ensures users[i].skills.Some? {
          assert users[i] in volunteers;
        }
      }
      FilterTwiceIsMatching(users, "volunteer", requiredSkills, isVolunteer, hasSkill);
      Value(Filter(volunteers, hasSkill))
  }

  class UserStore {
    var users: seq<User>

    ghost predicate Valid()
      reads this
    {
      IdsArePositions(users) && EmailsDistinct(users)
    }

    constructor ()
      ensures Valid() && users == SeedUsers()
    {
      users := SeedUsers();
    }

    /** `GET /api/users/:id` and `GET /api/profile/:id`. */
    function GetUser(id: int): (r: Reply<User>)
      reads this
      ensures r.Fail? <==> forall i :: 0 <= i < |users| ==> users[i].id != id
      ensures r.Fail? ==> r == Fail(404, "User not found")
      ensures r.Done? ==> r.status == 200 && r.payload in users && r.payload.id == id
    {
      var k := IndexOfId(users, id);
      if k == -1 then Fail(404, "User not found") else Done(200, "", users[k])
    }

    /** `POST /api/register`: a taken email is refused before the password is hashed; otherwise
        exactly one user is appended, with the next id. An absent password makes bcrypt throw,
        which the handler's catch answers with 500. */
    method Register(body: RegisterBody, hash: string -> string) returns (r: Reply<()>)
      requires Valid()
      modifies this
      ensures Valid()
      ensures EmailTaken(old(users), body.email) ==>
                r == Fail(400, "Email already in use.") && users == old(users)
      ensures !EmailTaken(old(users), body.email) && body.password.None? ==>
                r == Fail(500, "Internal server error") && users == old(users)
      ensures !EmailTaken(old(users), body.email) && body.password.Some? ==>
                r == Done(201, "Registration successful", ())
                && users == old(users) + [NewUser(|old(users)| + 1, body, hash(body.password.value))]
    {
      if EmailTaken(users, body.email) {
        return Fail(400, "Email already in use.");
      }
      if body.password.None? {
        return Fail(500, "Internal server error");
      }
      var newUser := NewUser(|users| + 1, body, hash(body.password.value));
      users := users + [newUser];
      r := Done(201, "Registration successful", ());
    }

    /** `POST /api/login`: the password is checked for presence before the email. An unknown
        email makes the handler read a property of `undefined` inside its try block, which the
        catch answers with 500. `matches` stands for bcrypt's comparison. */
    function Login(body: LoginBody, matches: (string, string) -> bool): (r: Reply<SessionUser>)
      reads this
      ensures !TextTruthy(body.password) ==> r == Fail(400, "Password is required")
      ensures TextTruthy(body.password) && !TextTruthy(body.email) ==> r == Fail(400, "Email is required")
      ensures TextTruthy(body.password) && TextTruthy(body.email)
              && (forall i :: 0 <= i < |users| ==> users[i].email != body.email) ==>
                r == Fail(500, "Internal server error")
      ensures r.Done? ==> r.status == 200 && r.message == "Login successful"
                          && exists i :: 0 <= i < |users| && users[i].email == body.email
                                         && matches(body.password.value, users[i].password)
                                         && r.payload == SessionOf(users[i])
      ensures r.Fail? && r.status == 401 ==> r.message == "Invalid credentials"
      ensures TextTruthy(body.password) && TextTruthy(body.email) ==>
                var k := FindIndex(users, (u: User) => u.email == body.email);
                k >= 0 ==>
                  if matches(body.password.value, users[k].password)
                  then r == Done(200, "Login successful", SessionOf(users[k]))
                  else r == Fail(401, "Invalid credentials")
      ensures !r.Threw?
    {
      if !TextTruthy(body.password) then Fail(400, "Password is required")
      else if !TextTruthy(body.email) then Fail(400, "Email is required")
      else
        var k := FindIndex(users, (u: User) => u.email == body.email);
        if k == -1 then Fail(500, "Internal server error")
        else if !matches(body.password.value, users[k].password) then Fail(401, "Invalid credentials")
        else Done(200, "Login successful", SessionOf(users[k]))
    }

    /** `PUT /api/users/:id`: replaces one user's notifications with the request body. */
    method PutNotifications(userId: int, newNotifs: Json) returns (r: Reply<User>)
      requires Valid()
      modifies this
      ensures Valid()
      ensures (forall i :: 0 <= i < |old(users)| ==> old(users)[i].id != userId) ==>
                r == Fail(404, "User not found") && users == old(users)
      ensures r.Done? ==>
                var k := IndexOfId(old(users), userId);
                k >= 0 && |users| == |old(users)| && r.status == 200 && r.payload == users[k]
                && users == old(users)[k := old(users)[k].(notifications := Some(newNotifs))]
      ensures IndexOfId(old(users), userId) >= 0 ==> r.Done?
      ensures r.Fail? || r.Done?
    {
      var k := IndexOfId(users, userId);
      if k == -1 {
        return Fail(404, "User not found");
      }
      var updatedUser := users[k].(notifications := Some(newNotifs));
      users := users[k := updatedUser];
      r := Done(200, "", updatedUser);
    }

    /** `PUT /api/profile`: behind `requireAuth`; merges the body into the session user's record
        and refreshes the session copy. */
    method UpdateProfile(session: Option<SessionUser>, body: ProfileBody)
      returns (r: Reply<User>, newSession: Option<SessionUser>)
      requires Valid()
      modifies this
      ensures Valid()
      ensures session.None? ==>
                r == Fail(401, "Unauthorized: Please log in") && users == old(users) && newSession == session
      ensures session.Some? && (forall i :: 0 <= i < |old(users)| ==> old(users)[i].id != session.value.id) ==>
                r == Fail(404, "User not found") && users == old(users) && newSession == session
      ensures r.Done? ==>
                var k := IndexOfId(old(users), session.value.id);
                k >= 0 && |users| == |old(users)| && r == Done(200, "Profile updated successfully", users[k])
                && users == old(users)[k := MergeProfile(old(users)[k], body)]
                && newSession == Some(SessionOf(users[k]))
      ensures session.Some? && IndexOfId(old(users), session.value.id) >= 0 ==> r.Done?
      ensures r.Fail? || r.Done?
    {
      if session.None? {
        return Fail(401, "Unauthorized: Please log in"), session;
      }
      var k := IndexOfId(users, session.value.id);
      if k == -1 {
        return Fail(404, "User not found"), session;
      }
      var updated := MergeProfile(users[k], body);
      users := users[k := updated];
      r := Done(200, "Profile updated successfully", updated);
      newSession := Some(SessionOf(updated));
    }

    /** `POST /api/volunteer-history/:id`: the user must exist, then six profile fields are
        required in a fixed order, then the body is appended to the user's history. A user
        without a history array (a registered one) makes `push` throw. */
    method AddHistory(userId: int, body: HistoryEntry) returns (r: Reply<seq<HistoryEntry>>)
      requires Valid()
      modifies this
      ensures Valid()
      ensures (forall i :: 0 <= i < |old(users)| ==> old(users)[i].id != userId) ==>
                r == Fail(404, "User not found") && users == old(users)
      ensures IndexOfId(old(users), userId) >= 0 && FirstFailure(HistoryChecks(body)).Some? ==>
                r == Fail(400, FirstFailure(HistoryChecks(body)).value) && users == old(users)
      ensures r.Threw? ==> users == old(users)
                           && old(users)[IndexOfId(old(users), userId)].volunteerHistory.None?
      ensures r.Done? ==>
                var k := IndexOfId(old(users), userId);
                k >= 0 && FirstFailure(HistoryChecks(body)).None?
                && old(users)[k].volunteerHistory.Some?
                && r.payload == old(users)[k].volunteerHistory.value + [body]
                && users == old(users)[k := old(users)[k].(volunteerHistory := Some(r.payload))]
      ensures var k := IndexOfId(old(users), userId);
              k >= 0 && FirstFailure(HistoryChecks(body)).None? ==>
                if old(users)[k].volunteerHistory.None? then r.Threw?
                else r == Done(200, "Volunteer history updated successfully", old(users)[k].volunteerHistory.value + [body])
    {
      var k := IndexOfId(users, userId);
      if k == -1 {
        return Fail(404, "User not found");
      }
      var missing := FirstFailure(HistoryChecks(body));
      if missing.Some? {
        return Fail(400, missing.value);
      }
      if users[k].volunteerHistory.None? {
        return Threw;
      }
      var history := users[k].volunteerHistory.value + [body];
      users := users[k := users[k].(volunteerHistory := Some(history))];
      r := Done(200, "Volunteer history updated successfully", history);
    }

    /** `DELETE /api/volunteer-history/:id/:eventIndex`: `eventIndex` is None when `parseInt`
        gives NaN. A missing history or an index outside the list is refused; otherwise one
        entry is spliced out. */
    method DeleteHistory(userId: int, eventIndex: Option<int>) returns (r: Reply<seq<HistoryEntry>>)
      requires Valid()
      modifies this
      ensures Valid()
      ensures (forall i :: 0 <= i < |old(users)| ==> old(users)[i].id != userId) ==>
                r == Fail(404, "User not found") && users == old(users)
      ensures r.Fail? ==> users == old(users) && (r.status == 404 || r == Fail(400, "Invalid event index"))
      ensures var k := IndexOfId(old(users), userId);
              k >= 0 ==>
                var h := old(users)[k].volunteerHistory;
                if h.None? || IndexRejected(h.value, eventIndex) then r == Fail(400, "Invalid event index")
                else r == Done(200, "Volunteer event removed successfully", SpliceOne(h.value, eventIndex))
                     && users == old(users)[k := old(users)[k].(volunteerHistory := Some(r.payload))]
      ensures !r.Threw?
    {
      var k := IndexOfId(users, userId);
      if k == -1 {
        return Fail(404, "User not found");
      }
      var h := users[k].volunteerHistory;
      if h.None? || IndexRejected(h.value, eventIndex) {
        return Fail(400, "Invalid event index");
      }
      var history := SpliceOne(h.value, eventIndex);
      users := users[k := users[k].(volunteerHistory := Some(history))];
      r := Done(200, "Volunteer event removed successfully", history);
    }
  }

  /** The six tests of `POST /api/volunteer-history/:id`, in the order the handler makes them.
      Strings are falsy when absent or empty; any skills value that is present passes, even []. */
  function HistoryChecks(body: HistoryEntry): seq<Check> {
    [ Check(TextTruthy(body.fullName), "Full name is required"),
      Check(TextTruthy(body.address1), "Address is required"),
      Check(TextTruthy(body.city), "City is required"),
      Check(TextTruthy(body.state), "State is required"),
      Check(TextTruthy(body.zipCode), "Zipcode is required"),
      Check(body.skills.Some?, "Skills are required") ]
  }

  /** A body without a full name is answered "Full name is required", whatever else it lacks;
      an empty skill list is accepted. */
  lemma HistoryCheckOrder(body: HistoryEntry)
    ensures !TextTruthy(body.fullName) ==> FirstFailure(HistoryChecks(body)) == Some("Full name is required")
    ensures TextTruthy(body.fullName) && !TextTruthy(body.address1) ==>
              FirstFailure(HistoryChecks(body)) == Some("Address is required")
    ensures FirstFailure(HistoryChecks(body)).None? <==>
              TextTruthy(body.fullName) && TextTruthy(body.address1) && TextTruthy(body.city)
              && TextTruthy(body.state) && TextTruthy(body.zipCode) && body.skills.Some?
  {
    var checks := HistoryChecks(body);
    if !TextTruthy(body.fullName) {
      FirstFailureIs(checks, 0);
    } else if !TextTruthy(body.address1) {
      FirstFailureIs(checks, 1);
    }
    if FirstFailure(checks).None? {
      assert checks[0].passes && checks[1].passes && checks[2].passes;
      assert checks[3].passes && checks[4].passes && checks[5].passes;
    }
  }

  /** `x !== undefined ? x : old || ""` for a text field. */
  function OrText(v: Option<string>, fallback: Option<string>): (r: Option<string>)
    ensures r.Some?
    ensures v.Some? ==> r == v
    ensures v.None? ==> r == Some(fallback.GetOr(""))
  {
    if v.Some? then v else if TextTruthy(fallback) then fallback else Some("")
  }

  /** The field-wise merge of `PUT /api/profile`: a field the body carries replaces the stored
      one, a field it leaves out keeps the stored value (address2, city, state, zip and
      preferences falling back to "", skills and availability to []). The zip code is read
      from the body's `zipCode`. Identity, role, history and notifications are untouched. */
  function MergeProfile(u: User, b: ProfileBody): (r: User)
    ensures r.id == u.id && r.email == u.email && r.password == u.password && r.role == u.role
    ensures r.volunteerHistory == u.volunteerHistory && r.notifications == u.notifications
    ensures r.fullName == (if b.fullName.Some? then b.fullName else u.fullName)
    ensures r.address1 == (if b.address1.Some? then b.address1 else u.address1)
    ensures r.address2 == Some(if b.address2.Some? then b.address2.value else u.address2.GetOr(""))
    ensures r.city == Some(if b.city.Some? then b.city.value else u.city.GetOr(""))
    ensures r.state == Some(if b.state.Some? then b.state.value else u.state.GetOr(""))
    ensures r.zip == Some(if b.zipCode.Some? then b.zipCode.value else u.zip.GetOr(""))
    ensures r.preferences == Some(if b.preferences.Some? then b.preferences.value else u.preferences.GetOr(""))
    ensures r.skills == Some(if b.skills.Some? then b.skills.value else u.skills.GetOr([]))
    ensures r.availability == Some(if b.availability.Some? then b.availability.value else u.availability.GetOr([]))
  {
    u.(fullName := if b.fullName.Some? then b.fullName else u.fullName,
       address1 := if b.address1.Some? then b.address1 else u.address1,
       address2 := OrText(b.address2, u.address2),
       city := OrText(b.city, u.city),
       state := OrText(b.state, u.state),
       zip := OrText(b.zipCode, u.zip),
       skills := Some(if b.skills.Some? then b.skills.value else u.skills.GetOr([])),
       preferences := OrText(b.preferences, u.preferences),
       availability := Some(if b.availability.Some? then b.availability.value else u.availability.GetOr([])))
  }

  /** Sending the same profile twice has the effect of sending it once. */
  lemma MergeProfileIdempotent(u: User, b: ProfileBody)
    ensures MergeProfile(MergeProfile(u, b), b) == MergeProfile(u, b)
  {
  }

  /** A body that carries every profile key determines every profile field, whatever was stored;
      the `zip` key is ignored. */
  lemma MergeFullBodyOverwrites(u: User, v: User, b: ProfileBody)
    requires b.fullName.Some? && b.address1.Some? && b.address2.Some? && b.city.Some? && b.state.Some?
    requires b.zipCode.Some? && b.skills.Some? && b.preferences.Some? && b.availability.Some?
    ensures MergeProfile(u, b) == u.(fullName := b.fullName, address1 := b.address1, address2 := b.address2,
                                     city := b.city, state := b.state, zip := b.zipCode, skills := b.skills,
                                     preferences := b.preferences, availability := b.availability)
    ensures MergeProfile(v, b).zip == MergeProfile(u, b).zip && MergeProfile(v, b).skills == MergeProfile(u, b).skills
  {
  }
}
