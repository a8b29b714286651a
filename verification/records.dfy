/** The records the in-memory user tables hold, the request bodies the handlers read, and the
    operations several revisions of the server share: skill matching, the blank-field tests and
    the `splice` that removes a volunteer-history entry. */
module Records {
  import opened JsCore
  import opened JsArray

  /** One volunteer-history entry. The root server stores eleven keys, the other revisions only
      event, location, date and status; a key that was not sent is None (`undefined`). */
  datatype HistoryEntry = HistoryEntry(
    event: Option<string>,
    eventdesc: Option<string>,
    location: Option<string>,
    date: Option<string>,
    status: Option<string>,
    fullName: Option<string>,
    address1: Option<string>,
    city: Option<string>,
    state: Option<string>,
    zipCode: Option<string>,
    skills: Option<seq<string>>)

  /** The object literal `{ event, location, date, status }`. */
  function BriefEntry(event: Option<string>, location: Option<string>, date: Option<string>,
                      status: Option<string>): (e: HistoryEntry)
    ensures e.event == event && e.location == location && e.date == date && e.status == status
    ensures e.eventdesc.None? && e.fullName.None? && e.skills.None?
  {
    HistoryEntry(event, None, location, date, status, None, None, None, None, None, None)
  }

  /** A user record of the in-memory tables; a property the record lacks is None. */
  datatype User = User(
    id: int,
    email: Option<string>,
    password: string,
    role: Option<string>,
    fullName: Option<string>,
    address1: Option<string>,
    address2: Option<string>,
    city: Option<string>,
    state: Option<string>,
    zip: Option<string>,
    skills: Option<seq<string>>,
    preferences: Option<string>,
    availability: Option<seq<string>>,
    volunteerHistory: Option<seq<HistoryEntry>>,
    notifications: Option<Json>)

  /** A bare account record: id, email, password, role, full name and nothing else. */
  function Account(id: int, email: string, password: string, role: string, fullName: string): (u: User)
    ensures u.id == id && u.email == Some(email) && u.role == Some(role)
    ensures u.skills.None? && u.volunteerHistory.None?
  {
    User(id, Some(email), password, Some(role), Some(fullName),
         None, None, None, None, None, None, None, None, None, None)
  }

  /** The profile keys a PUT body may carry. The root server and the backend read the zip code
      from `zipCode`, the handlers written in the test files from `zip`. */
  datatype ProfileBody = ProfileBody(
    fullName: Option<string>,
    address1: Option<string>,
    address2: Option<string>,
    city: Option<string>,
    state: Option<string>,
    zip: Option<string>,
    zipCode: Option<string>,
    skills: Option<seq<string>>,
    preferences: Option<string>,
    availability: Option<seq<string>>)

  /** `users.find(u => u.id === id)`, as an index (-1 when absent). */
  function IndexOfId(users: seq<User>, id: int): (k: int)
    ensures -1 <= k < |users|
    ensures k == -1 <==> forall i :: 0 <= i < |users| ==> users[i].id != id
    ensures k >= 0 ==> users[k].id == id && forall i :: 0 <= i < k ==> users[i].id != id
  {
    FindIndex(users, (u: User) => u.id == id)
  }

  /** `volunteer.skills.some(skill => requiredSkills.includes(skill))`: the volunteer has a skill
      the event requires (`includes` is SameValueZero, so only a JSON string equal to the skill
      counts). */
  predicate SkillsMeet(skills: seq<string>, requiredSkills: seq<Json>) {
    Any(skills, (s: string) => JStr(s) in requiredSkills)
  }

  /** `requiredSkills.some(skill => user.skills.includes(skill))`: some required skill is among the
      user's skills. */
  predicate RequirementsMet(requiredSkills: seq<Json>, skills: seq<string>) {
    Any(requiredSkills, (r: Json) => r.JStr? && r.s in skills)
  }

  /** The two phrasings of the skill test agree: both say the user's skills and the required
      skills have an element in common. */
  lemma MatchDirectionsAgree(skills: seq<string>, requiredSkills: seq<Json>)
    ensures SkillsMeet(skills, requiredSkills) <==> RequirementsMet(requiredSkills, skills)
    ensures SkillsMeet(skills, requiredSkills) <==> exists s :: s in skills && JStr(s) in requiredSkills
  {
    if SkillsMeet(skills, requiredSkills) {
      var i :| 0 <= i < |skills| && JStr(skills[i]) in requiredSkills;
      var j :| 0 <= j < |requiredSkills| && requiredSkills[j] == JStr(skills[i]);
      assert requiredSkills[j].JStr? && requiredSkills[j].s in skills;
    }
    if RequirementsMet(requiredSkills, skills) {
      var j :| 0 <= j < |requiredSkills| && requiredSkills[j].JStr? && requiredSkills[j].s in skills;
      var i :| 0 <= i < |skills| && skills[i] == requiredSkills[j].s;
      assert JStr(skills[i]) in requiredSkills;
    }
  }

  /** Nothing is required, so nothing matches. */
  lemma NoRequirementNoMatch(skills: seq<string>)
    ensures !SkillsMeet(skills, []) && !RequirementsMet([], skills)
  {
  }

  /** The DELETE handlers' guard `eventIndex < 0 || eventIndex >= history.length`. `parseInt` gives
      NaN (None) for a non-numeric segment, and both comparisons are false for NaN. */
  predicate IndexRejected(history: seq<HistoryEntry>, eventIndex: Option<int>) {
    eventIndex.Some? && (eventIndex.value < 0 || eventIndex.value >= |history|)
  }

  /** `history.splice(eventIndex, 1)` once the guard let the index through; splice reads NaN as 0. */
  function SpliceOne(history: seq<HistoryEntry>, eventIndex: Option<int>): (r: seq<HistoryEntry>)
    requires !IndexRejected(history, eventIndex)
    ensures eventIndex.Some? ==> |r| == |history| - 1 && r == history[..eventIndex.value] + history[eventIndex.value + 1..]
    ensures eventIndex.None? ==> r == if history == [] then [] else history[1..]
  {
    var k := eventIndex.GetOr(0);
    if k < |history| then RemoveAt(history, k) else history
  }

  /** A numeric index inside the list removes exactly that entry: the others keep their order. */
  lemma SpliceKeepsOthers(history: seq<HistoryEntry>, i: nat)
    requires i < |history|
    ensures |SpliceOne(history, Some(i))| == |history| - 1
    ensures forall j :: 0 <= j < i ==> SpliceOne(history, Some(i))[j] == history[j]
    ensures forall j :: i < j < |history| ==> SpliceOne(history, Some(i))[j - 1] == history[j]
    ensures multiset(SpliceOne(history, Some(i))) + multiset{history[i]} == multiset(history)
  {
    assert SpliceOne(history, Some(i)) == RemoveAt(history, i);
  }

  /** A non-numeric index passes the guard and removes the first entry. */
  lemma NonNumericIndexRemovesFirst(history: seq<HistoryEntry>)
    requires history != []
    ensures !IndexRejected(history, None)
    ensures SpliceOne(history, None) == history[1..]
  {
  }

  /** The seven fields `POST /api/events` insists on, each tested for truthiness. */
  function EventFieldChecks(body: Object): seq<bool> {
    [Truthy(Get(body, "name")), Truthy(Get(body, "location")), Truthy(Get(body, "envoy")),
     Truthy(Get(body, "requiredSkills")), Truthy(Get(body, "urgencyLevel")),
     Truthy(Get(body, "date")), Truthy(Get(body, "manager"))]
  }

  /** `!name || !location || !envoy || !requiredSkills || !urgencyLevel || !date || !manager` is false. */
  predicate EventFieldsPresent(body: Object) {
    forall i :: 0 <= i < 7 ==> EventFieldChecks(body)[i]
  }

  /** The matching test of `matchVolunteers`: the user has the wanted role, has a skill list, and
      shares a skill with the event. */
  predicate Qualifies(u: User, role: string, requiredSkills: seq<Json>) {
    u.role == Some(role) && u.skills.Some? && SkillsMeet(u.skills.value, requiredSkills)
  }

  /** Reference definition of the matching roster: the qualifying users, in table order. */
  function MatchingUsers(users: seq<User>, role: string, requiredSkills: seq<Json>): (r: seq<User>)
    ensures |r| <= |users|
    ensures forall u :: u in r <==> u in users && Qualifies(u, role, requiredSkills)
    ensures requiredSkills == [] ==> r == []
  {
    if users == [] then []
    else (if Qualifies(users[0], role, requiredSkills) then [users[0]] else [])
         + MatchingUsers(users[1..], role, requiredSkills)
  }

  /** The roster of a longer table extends the roster of its prefix: matching keeps table order. */
  lemma {:induction false} MatchingUsersAppend(a: seq<User>, b: seq<User>, role: string, requiredSkills: seq<Json>)
    ensures MatchingUsers(a + b, role, requiredSkills)
            == MatchingUsers(a, role, requiredSkills) + MatchingUsers(b, role, requiredSkills)
  {
    if a == [] {
      assert a + b == b;
    } else {
      assert (a + b)[0] == a[0] && (a + b)[1..] == a[1..] + b;
      MatchingUsersAppend(a[1..], b, role, requiredSkills);
    }
  }

  /** `users.filter(isRole).filter(hasSkill)`, the shape `matchVolunteers` is written in, is the
      matching roster, provided the two tests are the role test and the skill test. */
  lemma {:induction false} FilterTwiceIsMatching(users: seq<User>, role: string, requiredSkills: seq<Json>,
                                                  isRole: User -> bool, hasSkill: User -> bool)
    requires forall u: User :: isRole(u) == (u.role == Some(role))
    requires forall u: User :: u.role == Some(role) && u.skills.Some? ==>
                           hasSkill(u) == SkillsMeet(u.skills.value, requiredSkills)
    requires forall i :: 0 <= i < |users| && users[i].role == Some(role) ==> users[i].skills.Some?
    ensures Filter(Filter(users, isRole), hasSkill) == MatchingUsers(users, role, requiredSkills)
  {
    if users != [] {
      FilterTwiceIsMatching(users[1..], role, requiredSkills, isRole, hasSkill);
    }
  }

  /** `users.filter(u => isRole(u) && hasSkill(u))`, the shape of the match route, is the same roster. */
  lemma {:induction false} FilterOnceIsMatching(users: seq<User>, role: string, requiredSkills: seq<Json>,
                                                 both: User -> bool)
    requires forall u: User :: u.role == Some(role) && u.skills.Some? ==>
                           both(u) == SkillsMeet(u.skills.value, requiredSkills)
    requires forall u: User :: u.role != Some(role) ==> !both(u)
    requires forall i :: 0 <= i < |users| && users[i].role == Some(role) ==> users[i].skills.Some?
    ensures Filter(users, both) == MatchingUsers(users, role, requiredSkills)
  {
    if users != [] {
      FilterOnceIsMatching(users[1..], role, requiredSkills, both);
    }
  }

  /** `users.find(u => u.id === id && u.role === "volunteer")`, as an index (-1 when absent). */
  function VolunteerIndex(users: seq<User>, id: int): (k: int)
    ensures -1 <= k < |users|
    ensures k == -1 <==> forall i :: 0 <= i < |users| ==> !(users[i].id == id && users[i].role == Some("volunteer"))
    ensures k >= 0 ==> users[k].id == id && users[k].role == Some("volunteer")
    ensures k >= 0 ==> forall i :: 0 <= i < k ==> !(users[i].id == id && users[i].role == Some("volunteer"))
  {
    FindIndex(users, (u: User) => u.id == id && u.role == Some("volunteer"))
  }

  /** The user table the handlers written in the test files start from. */
  function TestSeedUsers(): seq<User> {
    var charityRun := BriefEntry(Some("Charity Run"), Some("18427 Southwest Fwy, Sugar Land, TX 77479"),
                                 Some("2024-06-15"), Some("Completed"));
    [ Account(1, "admin@example.com", "admin_123", "admin", "Admin"),
      Account(2, "johndoe@gmail.com", "admin_123", "admin", "John Doe"),
      Account(3, "charlie@example.com", "volunteer_123", "volunteer", "Charlie")
        .(skills := Some(["First Aid", "Security"]), volunteerHistory := Some([]), notifications := Some(JArr([]))),
      Account(4, "alice@example.com", "volunteer_123", "volunteer", "Alice")
        .(skills := Some(["First Aid", "Logistics"]), volunteerHistory := Some([charityRun]), notifications := Some(JArr([]))) ]
  }

  /** The nine assignments of the validated `PUT /api/user/:id` handlers: every profile field
      takes the body's value, `undefined` included; the zip comes from the `zip` key. */
  function OverwriteProfile(u: User, b: ProfileBody): (r: User)
    ensures r.id == u.id && r.email == u.email && r.password == u.password && r.role == u.role
    ensures r.volunteerHistory == u.volunteerHistory && r.notifications == u.notifications
    ensures r.fullName == b.fullName && r.address1 == b.address1 && r.address2 == b.address2
    ensures r.city == b.city && r.state == b.state && r.zip == b.zip
    ensures r.skills == b.skills && r.preferences == b.preferences && r.availability == b.availability
  {
    u.(fullName := b.fullName, address1 := b.address1, address2 := b.address2, city := b.city,
       state := b.state, zip := b.zip, skills := b.skills, preferences := b.preferences,
       availability := b.availability)
  }

  /** After the overwrite the stored profile is the body, whatever was stored before: two users
      given the same body differ only in identity, history and notifications; and a second
      overwrite with the same body changes nothing. */
  lemma OverwriteForgetsOldProfile(u: User, v: User, b: ProfileBody)
    ensures OverwriteProfile(u, b) == OverwriteProfile(v, b).(id := u.id, email := u.email, password := u.password,
              role := u.role, volunteerHistory := u.volunteerHistory, notifications := u.notifications)
    ensures OverwriteProfile(OverwriteProfile(u, b), b) == OverwriteProfile(u, b)
    ensures OverwriteProfile(u, b).fullName == b.fullName && OverwriteProfile(u, b).availability == b.availability
  {
  }

  /** The tests of the validated `PUT /api/user/:id` handlers, in order, for a given blank test:
      five text fields must not be blank, and skills must be a non-empty array. */
  function ProfileChecksWith(b: ProfileBody, blank: Option<string> -> bool): seq<Check> {
    [ Check(!blank(b.fullName), "Full name is required"),
      Check(!blank(b.address1), "Address line 1 is required"),
      Check(!blank(b.city), "City is required"),
      Check(!blank(b.state), "State is required"),
      Check(!blank(b.zip), "Zip code is required"),
      Check(b.skills.Some? && b.skills.value != [], "At least one skill is required") ]
  }

  /** The checks accept exactly the bodies with no blank text field and a non-empty skill list. */
  lemma ProfileChecksPass(b: ProfileBody, blank: Option<string> -> bool)
    ensures FirstFailure(ProfileChecksWith(b, blank)).None? <==>
              !blank(b.fullName) && !blank(b.address1) && !blank(b.city) && !blank(b.state)
              && !blank(b.zip) && b.skills.Some? && b.skills.value != []
  {
    var checks := ProfileChecksWith(b, blank);
    if FirstFailure(checks).None? {
      assert checks[0].passes && checks[1].passes && checks[2].passes;
      assert checks[3].passes && checks[4].passes && checks[5].passes;
    }
  }

  /** The first blank field, in the order full name, address, city, state, zip, names the error;
      the skills are looked at only when all five are filled in. */
  lemma ProfileCheckOrder(b: ProfileBody, blank: Option<string> -> bool)
    ensures blank(b.fullName) ==> FirstFailure(ProfileChecksWith(b, blank)) == Some("Full name is required")
    ensures !blank(b.fullName) && blank(b.address1) ==>
              FirstFailure(ProfileChecksWith(b, blank)) == Some("Address line 1 is required")
    ensures !blank(b.fullName) && !blank(b.address1) && blank(b.city) ==>
              FirstFailure(ProfileChecksWith(b, blank)) == Some("City is required")
    ensures !blank(b.fullName) && !blank(b.address1) && !blank(b.city) && blank(b.state) ==>
              FirstFailure(ProfileChecksWith(b, blank)) == Some("State is required")
    ensures !blank(b.fullName) && !blank(b.address1) && !blank(b.city) && !blank(b.state) && blank(b.zip) ==>
              FirstFailure(ProfileChecksWith(b, blank)) == Some("Zip code is required")
    ensures !blank(b.fullName) && !blank(b.address1) && !blank(b.city) && !blank(b.state) && !blank(b.zip)
            && (b.skills.None? || b.skills.value == []) ==>
              FirstFailure(ProfileChecksWith(b, blank)) == Some("At least one skill is required")
  {
    var checks := ProfileChecksWith(b, blank);
    if blank(b.fullName) {
      FirstFailureIs(checks, 0);
    } else if blank(b.address1) {
      FirstFailureIs(checks, 1);
    } else if blank(b.city) {
      FirstFailureIs(checks, 2);
    } else if blank(b.state) {
      FirstFailureIs(checks, 3);
    } else if blank(b.zip) {
      FirstFailureIs(checks, 4);
    } else if b.skills.None? || b.skills.value == [] {
      FirstFailureIs(checks, 5);
    }
  }

  /** Every user's id is its position plus one: the tables are seeded that way, ids are assigned
      as `users.length + 1` and users are never removed. */
  ghost predicate IdsArePositions(users: seq<User>) {
    forall i :: 0 <= i < |users| ==> users[i].id == i + 1
  }

  /** No two users share an email (`undefined` counts as a value here, as `===` treats it). */
  ghost predicate EmailsDistinct(users: seq<User>) {
    forall i, j :: 0 <= i < j < |users| ==> users[i].email != users[j].email
  }

  /** With ids equal to positions plus one, looking a user up by id finds position id - 1. */
  lemma IndexOfIdIsPosition(users: seq<User>, id: int)
    requires IdsArePositions(users)
    ensures IndexOfId(users, id) == if 1 <= id <= |users| then id - 1 else -1
  {
    var k := IndexOfId(users, id);
    if 1 <= id <= |users| {
      assert users[id - 1].id == id;
    }
  }
}
