/** The stand-alone application `backend/server.test.js` builds: its own four-user table, a login
    that compares plain-text passwords, an admin lookup, a validated profile overwrite and a
    history listing. */
module BackendTestApp {
  import opened JsCore
  import opened JsArray
  import opened JsText
  import opened Records

  /** The reply of a successful login. */
  datatype LoginView = LoginView(id: int, fullName: Option<string>, email: Option<string>, role: Option<string>)

  /** The tests of `PUT /api/user/:id`: `!x || x.trim() === ""` is the blank test. */
  function ProfileChecks(b: ProfileBody): (r: seq<Check>)
    ensures FirstFailure(r).None? <==>
              !FalsyOrBlank(b.fullName) && !FalsyOrBlank(b.address1) && !FalsyOrBlank(b.city)
              && !FalsyOrBlank(b.state) && !FalsyOrBlank(b.zip) && b.skills.Some? && b.skills.value != []
  {
    ProfileChecksPass(b, FalsyOrBlank);
    ProfileChecksWith(b, FalsyOrBlank)
  }

  /** This file's validation accepts and refuses the same bodies, with the same messages, as the
      `!x?.trim()` validation of `__tests__/volunteerHistory.test.js`. */
  lemma SameValidationAsRootTests(b: ProfileBody)
    ensures ProfileChecks(b) == ProfileChecksWith(b, BlankAfterTrim)
  {
    BlankTestsAgree(b.fullName);
    BlankTestsAgree(b.address1);
    BlankTestsAgree(b.city);
    BlankTestsAgree(b.state);
    BlankTestsAgree(b.zip);
  }

  class TestApp {
    var users: seq<User>

    ghost predicate Valid()
      reads this
    {
      IdsArePositions(users) && EmailsDistinct(users)
    }

    constructor ()
      ensures Valid() && users == TestSeedUsers()
    {
      users := TestSeedUsers();
    }

    /** `POST /api/login`: succeeds exactly when some user has the email and, as plain text, the
        password of the body. */
    function Login(email: Option<string>, password: Option<string>): (r: Reply<LoginView>)
      reads this
      ensures r.Done? <==> exists i :: 0 <= i < |users| && users[i].email == email && password == Some(users[i].password)
      ensures r.Done? ==> r.status == 200 && r.message == "Login successful"
                          && exists i :: 0 <= i < |users| && users[i].email == email && password == Some(users[i].password)
                                         && r.payload == LoginView(users[i].id, users[i].fullName, users[i].email, users[i].role)
      ensures r.Fail? ==> r == Fail(401, "Invalid email or password")
      ensures !r.Threw?
    {
      var k := FindIndex(users, (u: User) => u.email == email && password == Some(u.password));
      if k == -1 then Fail(401, "Invalid email or password")
      else
        var u := users[k];
        Done(200, "Login successful", LoginView(u.id, u.fullName, u.email, u.role))
    }

    /** `GET /api/admin/:id`: only a user with that id and role "admin" is returned. */
    function AdminLookup(id: int): (r: Reply<User>)
      reads this
      ensures r.Done? <==> exists i :: 0 <= i < |users| && users[i].id == id && users[i].role == Some("admin")
      ensures r.Done? ==> r.status == 200 && r.payload in users && r.payload.id == id && r.payload.role == Some("admin")
      ensures r.Fail? ==> r == Fail(404, "Admin not found")
      ensures !r.Threw?
    {
      var k := FindIndex(users, (u: User) => u.id == id && u.role == Some("admin"));
      if k == -1 then Fail(404, "Admin not found") else Done(200, "", users[k])
    }

    /** `PUT /api/user/:id`: an unknown id is refused before any validation; a body that passes
        every check overwrites the nine profile fields of that user alone. */
    method UpdateUser(userId: int, body: ProfileBody) returns (r: Reply<User>)
      requires Valid()
      modifies this
      ensures Valid()
      ensures (forall i :: 0 <= i < |old(users)| ==> old(users)[i].id != userId) ==>
                r == Fail(404, "User not found") && users == old(users)
      ensures IndexOfId(old(users), userId) >= 0 && FirstFailure(ProfileChecks(body)).Some? ==>
                r == Fail(400, FirstFailure(ProfileChecks(body)).value) && users == old(users)
      ensures r.Done? ==>
                var k := IndexOfId(old(users), userId);
                k >= 0 && FirstFailure(ProfileChecks(body)).None?
                && r == Done(200, "Profile updated successfully", OverwriteProfile(old(users)[k], body))
                && users == old(users)[k := r.payload]
      ensures IndexOfId(old(users), userId) >= 0 && FirstFailure(ProfileChecks(body)).None? ==> r.Done?
      ensures !r.Threw?
    {
      var k := IndexOfId(users, userId);
      if k == -1 {
        return Fail(404, "User not found");
      }
      var missing := FirstFailure(ProfileChecks(body));
      if missing.Some? {
        return Fail(400, missing.value);
      }
      var updated := OverwriteProfile(users[k], body);
      users := users[k := updated];
      r := Done(200, "Profile updated successfully", updated);
    }

    /** `GET /api/user/:id/volunteer-history`: a volunteer's stored history, `undefined` (None)
        included. */
    function GetHistory(userId: int): (r: Reply<Option<seq<HistoryEntry>>>)
      reads this
      ensures r.Fail? <==> forall i :: 0 <= i < |users| ==> !(users[i].id == userId && users[i].role == Some("volunteer"))
      ensures r.Fail? ==> r == Fail(404, "User not found or not a volunteer")
      ensures r.Done? ==> exists i :: 0 <= i < |users| && users[i].id == userId && users[i].role == Some("volunteer")
                                      && r.payload == users[i].volunteerHistory
      ensures r.Done? ==> r.status == 200
      ensures !r.Threw?
    {
      var k := VolunteerIndex(users, userId);
      if k == -1 then Fail(404, "User not found or not a volunteer") else Done(200, "", users[k].volunteerHistory)
    }
  }

  /** In the seeded table only ids 1 and 2 are admins, and Alice logs in with her plain password. */
  lemma SeededLookups(app: TestApp)
    requires app.users == TestSeedUsers()
    ensures app.AdminLookup(1).Done? && app.AdminLookup(3) == Fail(404, "Admin not found")
    ensures app.Login(Some("alice@example.com"), Some("volunteer_123")).Done?
    ensures app.Login(Some("alice@example.com"), Some("wrong")) == Fail(401, "Invalid email or password")
  {
    var u := app.users;
    assert u[0].id == 1 && u[0].role == Some("admin");
    assert u[3].email == Some("alice@example.com") && u[3].password == "volunteer_123";
    assert forall i :: 0 <= i < |u| ==> u[i].id == i + 1;
    assert forall i :: 0 <= i < |u| ==> u[i].password == "admin_123" || u[i].password == "volunteer_123";
  }
}
