/** The handlers `__tests__/volunteerHistory.test.js` adds to the root server's application. They
    work on the root server's own user table, with trim-based validation, and are modelled on
    their own, as written (mounted after the root server's routes, its POST and DELETE would be
    reached only if the root server's handlers were absent). */
module RootTestRoutes {
  import opened JsCore
  import opened JsText
  import opened Records
  import opened RootServer

  /** The tests of `PUT /api/user/:id`: `!x?.trim()` is the blank test. */
  function ProfileChecks(b: ProfileBody): (r: seq<Check>)
    ensures FirstFailure(r).None? <==>
              !BlankAfterTrim(b.fullName) && !BlankAfterTrim(b.address1) && !BlankAfterTrim(b.city)
              && !BlankAfterTrim(b.state) && !BlankAfterTrim(b.zip) && b.skills.Some? && b.skills.value != []
    ensures FirstFailure(r).None? ==> b.fullName.Some? && !AllWhitespace(b.fullName.value)
  {
    ProfileChecksPass(b, BlankAfterTrim);
    BlankTestsAgree(b.fullName);
    ProfileChecksWith(b, BlankAfterTrim)
  }

  /** The test of `POST /api/volunteer-history/:id`: event, location, date and status must all be
      present and not blank after `trim`. */
  predicate EventDetailsPresent(event: Option<string>, location: Option<string>, date: Option<string>,
                                status: Option<string>) {
    !(BlankAfterTrim(event) || BlankAfterTrim(location) || BlankAfterTrim(date) || BlankAfterTrim(status))
  }

  /** `PUT /api/user/:id`: the user must exist before anything is validated; a body that passes
      every check overwrites the nine profile fields. */
  method UpdateUser(store: UserStore, userId: int, body: ProfileBody) returns (r: Reply<User>)
    requires store.Valid()
    modifies store
    ensures store.Valid()
    ensures (forall i :: 0 <= i < |old(store.users)| ==> old(store.users)[i].id != userId) ==>
              r == Fail(404, "User not found") && store.users == old(store.users)
    ensures IndexOfId(old(store.users), userId) >= 0 && FirstFailure(ProfileChecks(body)).Some? ==>
              r == Fail(400, FirstFailure(ProfileChecks(body)).value) && store.users == old(store.users)
    ensures r.Done? ==>
              var k := IndexOfId(old(store.users), userId);
              k >= 0 && FirstFailure(ProfileChecks(body)).None?
              && r == Done(200, "Profile updated successfully", OverwriteProfile(old(store.users)[k], body))
              && store.users == old(store.users)[k := r.payload]
    ensures IndexOfId(old(store.users), userId) >= 0 && FirstFailure(ProfileChecks(body)).None? ==> r.Done?
    ensures !r.Threw?
  {
    var k := IndexOfId(store.users, userId);
    if k == -1 {
      return Fail(404, "User not found");
    }
    var missing := FirstFailure(ProfileChecks(body));
    if missing.Some? {
      return Fail(400, missing.value);
    }
    var updated := OverwriteProfile(store.users[k], body);
    store.users := store.users[k := updated];
    r := Done(200, "Profile updated successfully", updated);
  }

  /** `GET /api/user/:id/volunteer-history`: only a volunteer's history is shown, [] when the
      user has none. */
  function GetHistory(store: UserStore, userId: int): (r: Reply<seq<HistoryEntry>>)
    reads store
    ensures r.Fail? <==> forall i :: 0 <= i < |store.users| ==>
                           !(store.users[i].id == userId && store.users[i].role == Some("volunteer"))
    ensures r.Fail? ==> r == Fail(404, "User not found or not a volunteer")
    ensures r.Done? ==> exists i :: 0 <= i < |store.users| && store.users[i].id == userId
                                    && store.users[i].role == Some("volunteer")
                                    && r.payload == store.users[i].volunteerHistory.GetOr([])
    ensures r.Done? ==> r.status == 200
    ensures !r.Threw?
  {
    var k := VolunteerIndex(store.users, userId);
    if k == -1 then Fail(404, "User not found or not a volunteer")
    else Done(200, "", store.users[k].volunteerHistory.GetOr([]))
  }

  /** `POST /api/volunteer-history/:id`: the user must exist, then the four event details must
      not be blank; a missing history starts as [] and the four-key entry goes at its end. */
  method AddHistory(store: UserStore, userId: int, event: Option<string>, location: Option<string>,
                    date: Option<string>, status: Option<string>) returns (r: Reply<seq<HistoryEntry>>)
    requires store.Valid()
    modifies store
    ensures store.Valid()
    ensures (forall i :: 0 <= i < |old(store.users)| ==> old(store.users)[i].id != userId) ==>
              r == Fail(404, "User not found") && store.users == old(store.users)
    ensures IndexOfId(old(store.users), userId) >= 0 && !EventDetailsPresent(event, location, date, status) ==>
              r == Fail(400, "All event details are required") && store.users == old(store.users)
    ensures r.Done? ==>
              var k := IndexOfId(old(store.users), userId);
              k >= 0 && EventDetailsPresent(event, location, date, status)
              && r.status == 200 && r.message == "Volunteer history updated successfully"
              && r.payload == old(store.users)[k].volunteerHistory.GetOr([]) + [BriefEntry(event, location, date, status)]
              && store.users == old(store.users)[k := old(store.users)[k].(volunteerHistory := Some(r.payload))]
    ensures IndexOfId(old(store.users), userId) >= 0 && EventDetailsPresent(event, location, date, status) ==> r.Done?
    ensures !r.Threw?
  {
    var k := IndexOfId(store.users, userId);
    if k == -1 {
      return Fail(404, "User not found");
    }
    if !EventDetailsPresent(event, location, date, status) {
      return Fail(400, "All event details are required");
    }
    var history := store.users[k].volunteerHistory.GetOr([]) + [BriefEntry(event, location, date, status)];
    store.users := store.users[k := store.users[k].(volunteerHistory := Some(history))];
    r := Done(200, "Volunteer history updated successfully", history);
  }

  /** `DELETE /api/volunteer-history/:id/:eventIndex`: a user without a history array, or an index
      outside it, is refused with nothing changed; otherwise one entry is spliced out. */
  method DeleteHistory(store: UserStore, userId: int, eventIndex: Option<int>) returns (r: Reply<seq<HistoryEntry>>)
    requires store.Valid()
    modifies store
    ensures store.Valid()
    ensures (forall i :: 0 <= i < |old(store.users)| ==> old(store.users)[i].id != userId) ==>
              r == Fail(404, "User not found") && store.users == old(store.users)
    ensures r.Fail? ==> store.users == old(store.users)
    ensures var k := IndexOfId(old(store.users), userId);
            k >= 0 ==>
              var h := old(store.users)[k].volunteerHistory;
              if h.None? || IndexRejected(h.value, eventIndex) then r == Fail(400, "Invalid event index")
              else r == Done(200, "Volunteer event removed successfully", SpliceOne(h.value, eventIndex))
                   && store.users == old(store.users)[k := old(store.users)[k].(volunteerHistory := Some(r.payload))]
    ensures !r.Threw?
  {
    var k := IndexOfId(store.users, userId);
    if k == -1 {
      return Fail(404, "User not found");
    }
    var h := store.users[k].volunteerHistory;
    if h.None? || IndexRejected(h.value, eventIndex) {
      return Fail(400, "Invalid event index");
    }
    var history := SpliceOne(h.value, eventIndex);
    store.users := store.users[k := store.users[k].(volunteerHistory := Some(history))];
    r := Done(200, "Volunteer event removed successfully", history);
  }
}
