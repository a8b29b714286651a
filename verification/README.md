# Volunteer and event management: a Dafny model of its record tables, matching and forms

The system is a small volunteer-management web application. An Express server keeps user
records in memory. It registers and logs users in, merges profile edits, keeps each volunteer's
history of events, and lists and matches events against volunteers' skills. Several revisions of
the server exist side by side:

- the root `server.js`;
- `backend/server.js`, which reads its tables from MySQL;
- stand-alone handler sets written inside three test files.

React pages edit a volunteer profile (two revisions) and create events and match volunteers to
them (two revisions).

This project models each of those pieces as it is written:

- **Server state.** A table the server changes in place is a Dafny `class` whose field is a
  sequence of records. Its handlers are methods that return a reply: a status, a message and a
  payload. A reply can also be `Threw` when the JavaScript handler would raise a `TypeError`
  (what that means for the two handlers whose error nobody catches is under "## Left out").
- **JavaScript values.** `undefined` is `None`, a plain object is a `map<string, Json>`, and object
  spread is map union. JavaScript truthiness, `===`, `includes` and `trim` are written out in
  `JsCore`, `JsText` and `JsArray`. The result of `parseInt` on a route parameter is a parameter
  of the handler: an `Option<int>`, with `None` for NaN.
- **Page handlers.** React handlers are pure functions from the old state to the new state.
- **Proofs.** Each handler is proved against its contract: what the reply is on every path,
  which record changes and how, and that nothing else changes. Lemmas relate the operations to
  reference definitions. One lemma shows that the two phrasings of the skill test agree. Other
  lemmas cover what undoes what, which merges are idempotent, and which table invariants are
  kept.

Modules, one per source file plus three shared ones:

| module | file | models |
|---|---|---|
| `JsCore`, `JsText`, `JsArray` | jscore.dfy, jstext.dfy, jsarray.dfy | JavaScript values, truthiness, strict equality, trim, decimal strings, `findIndex`/`filter`/`splice` |
| `Records` | records.dfy | user and history records, request bodies, skill matching over records, the shared validation and `splice` |
| `JsonRows` | json_rows.dfy | skill matching over users held as JSON objects |
| `RootServer` | root_server.dfy | `server.js` |
| `RootTestRoutes` | root_test_routes.dfy | the handlers of `__tests__/volunteerHistory.test.js` |
| `BackendServer` | backend_server.dfy | `backend/server.js` |
| `BackendTestApp` | backend_test_app.dfy | the application of `backend/server.test.js` |
| `BackendHistoryTestApp` | backend_history_test_app.dfy | the application of `backend/tests/volunteerHistory.test.js` |
| `FormCommon`, `ProfileForm`, `LegacyProfileForm` | form_common.dfy, profile_form.dfy, legacy_profile_form.dfy | the two `userProfile.jsx` revisions |
| `AdminEvents` | admin_events.dfy | `front_end_dev/ems/src/pages/Profile/Admin/EventManagement.jsx` |
| `EventsForm` | events_form.dfy | `front_end_dev/ems/Events_form/src/components/EventManagement.js` |

The model follows each file's code as written, also where the files disagree with one another.
The root server's login checks the password before the email, and its admin check wants the
role "admin". The back end checks the email first and wants "Manager". The back end's
`matchVolunteers` and match route read `role` and `skills`, while the rows it loads carry
`UserRole`. The back end's user table is undefined until a login or `GET /api/users` loads it,
because nothing calls `init`. The admin event page looks events up by `EventID` and updates them
by `id`.

## Model

| member | source | states |
|---|---|---|
| Records.IndexOfId | server.js:558 | `users.find(u => u.id === id)` as a position: -1 exactly when no user has the id, otherwise the first user with it |
| Records.IndexOfIdIsPosition | server.js:110 | with ids assigned as length + 1 and no user ever removed, the user with id `n` sits at position `n - 1` |
| Records.MatchDirectionsAgree | backend/server.js:470-473 | `skills.some(s => required.includes(s))` and `required.some(r => skills.includes(r))` hold for exactly the same lists: both mean a shared skill |
| Records.NoRequirementNoMatch | server.js:267-272 | with no required skill, neither phrasing of the skill test accepts anybody |
| Records.MatchingUsers | server.js:267-272 | the reference roster: exactly the users with the role, a skill list and a shared skill, never longer than the table, empty when nothing is required |
| Records.MatchingUsersAppend | server.js:267-272 | matching keeps table order: the roster of `a + b` is the roster of `a` followed by that of `b` |
| Records.FilterTwiceIsMatching | server.js:267-272 | the two-filter shape `matchVolunteers` is written in yields the reference roster |
| Records.FilterOnceIsMatching | backend/server.js:470-473 | the one-filter shape of the match route yields the same roster |
| Records.SpliceOne | server.js:604 | `splice(i, 1)` on an index the guard let through removes entry `i` alone, and for NaN (None) removes the first entry |
| Records.SpliceKeepsOthers | server.js:604 | splicing index `i` shortens the history by one, keeps the entries before and after `i` in order, and removes only `history[i]` from the multiset |
| Records.NonNumericIndexRemovesFirst | server.js:600-604 | a non-numeric index passes the bounds guard, because NaN compares false both ways, and deletes the first entry |
| Records.VolunteerIndex | __tests__/volunteerHistory.test.js:47 | the first user with the id and role "volunteer", or -1 exactly when there is none |
| Records.BriefEntry | __tests__/volunteerHistory.test.js:69 | the stored entry carries exactly event, location, date and status |
| Records.Account | server.js:26-80 | a bare seed account has its id, email and role and no skills or history |
| Records.OverwriteProfile | __tests__/volunteerHistory.test.js:32-40 | all nine profile fields take the body's values, `undefined` included, and the zip is read from `zip`; identity, history and notifications are kept |
| Records.OverwriteForgetsOldProfile | __tests__/volunteerHistory.test.js:32-40 | after the overwrite the stored profile depends only on the body, and a second overwrite with the same body changes nothing |
| Records.ProfileChecksPass | __tests__/volunteerHistory.test.js:13-30 | the validation passes exactly when no text field is blank and the skills are a non-empty list |
| Records.ProfileCheckOrder | __tests__/volunteerHistory.test.js:13-30 | the first blank field in the order full name, address, city, state, zip names the 400 message; skills are judged only after all five |
| JsonRows.Matching | backend/server.js:391-397 | reference roster over JSON rows: exactly the users whose `role` is the role, whose `skills` is an array and who share a skill, in table order |
| JsonRows.FilterIsMatching | backend/server.js:470-473 | any one-pass filter with the matching test is the roster |
| JsonRows.MatchingAppend | backend/server.js:391-397 | matching keeps table order |
| JsonRows.RowsWithoutRoleMatchNobody | backend/server.js:392 | rows that carry no `role` key, like the `logininfo` rows the back end loads, match nobody |
| RootServer.SessionOf | server.js:144-157 | the session copy keeps id, email, role and name, and turns a missing skill list or history into [] and missing notifications into [] |
| RootServer.NewUser | server.js:107-110 | a registered user gets the given id, the hashed password, role "volunteer" and skills [] when the body leaves them out, and no address, history or notifications |
| RootServer.AdminProfile | server.js:174-185 | no session gives 401; a role other than "admin" gives 403; otherwise the session's id, email, name and role are returned |
| RootServer.CheckSkillName | server.js:281-284 | a skill name passes exactly when it is one of the six listed names; any other is refused with 400 before anything is stored |
| RootServer.FirstAidSpellingRejected | server.js:281 | "First Aid", the spelling of the seed users, is refused, while "First-Aid" passes |
| RootServer.CheckEventFields | server.js:302-307 | an event body passes exactly when all seven fields are truthy, otherwise 400 "Required fields are missing" |
| RootServer.MatchVolunteers | server.js:267-272 | throws exactly when some volunteer has no skill list; otherwise returns the reference roster: the volunteers sharing a skill, in order, and none when nothing is required |
| RootServer.UserStore.constructor | server.js:26-80 | the table starts as the seeded users, with ids equal to positions plus one and distinct emails |
| RootServer.UserStore.GetUser | server.js:233-241 | 404 exactly when no user has the id; otherwise a user of the table with that id |
| RootServer.UserStore.Register | server.js:105-119 | a taken email gives 400 with the table unchanged; a missing password makes bcrypt throw, giving 500 with the table unchanged; otherwise exactly one user is appended, with id old length + 1; id and email invariants kept |
| RootServer.UserStore.Login | server.js:121-165 | the password is checked before the email; an unknown email ends in 500; for the first user with the email, a matching hash gives 200 "Login successful" with that user's session copy and a mismatch gives 401 "Invalid credentials"; nothing throws |
| RootServer.UserStore.PutNotifications | server.js:244-262 | unknown id gives 404 with the table unchanged; a known id always succeeds, and only that user's notifications change, set to the body |
| RootServer.UserStore.UpdateProfile | server.js:501-551 | no session gives 401; an unknown session id gives 404; a known one always succeeds: that user alone becomes the field-wise merge with the body, and the session copy is rebuilt from it |
| RootServer.UserStore.AddHistory | server.js:555-588 | unknown user gives 404 before any field check; then the first missing field of six gives its 400; once all pass, a user without a history makes `push` throw and any other user's history gains exactly the body at its end |
| RootServer.UserStore.DeleteHistory | server.js:591-606 | unknown user gives 404; a missing history or an index outside it gives 400 with nothing changed; otherwise the history is the spliced one and no other user changes |
| RootServer.HistoryCheckOrder | server.js:565-570 | full name is checked first and address second; the checks all pass exactly when the five texts are truthy and skills are present, even as [] |
| RootServer.OrText | server.js:526 | `v !== undefined ? v : old \|\| ""`: the sent value, else the stored one, else "" |
| RootServer.MergeProfile | server.js:524-532 | a field the body sends replaces the stored one; a field it leaves out keeps the stored value, with "" and [] defaults; the zip comes from `zipCode`; id, email, password, role, history and notifications are untouched |
| RootServer.MergeProfileIdempotent | server.js:524-532 | sending the same profile twice has the effect of sending it once |
| RootServer.MergeFullBodyOverwrites | server.js:524-532 | a body carrying every profile key determines every profile field, whatever was stored |
| RootTestRoutes.ProfileChecks | __tests__/volunteerHistory.test.js:13-30 | the `!x?.trim()` checks pass exactly when the five texts are not blank after trim and skills is a non-empty array |
| RootTestRoutes.UpdateUser | __tests__/volunteerHistory.test.js:5-43 | unknown id gives 404 before validation; a failed check gives its 400 with nothing changed; a passing body always succeeds, and that user alone is overwritten with the nine fields |
| RootTestRoutes.GetHistory | __tests__/volunteerHistory.test.js:46-52 | 404 exactly when no volunteer has the id; otherwise that volunteer's history, [] when absent |
| RootTestRoutes.AddHistory | __tests__/volunteerHistory.test.js:55-73 | unknown user gives 404; a blank event, location, date or status gives 400 "All event details are required"; otherwise it always succeeds, and the history, [] when absent, gains the four-key entry at its end |
| RootTestRoutes.DeleteHistory | __tests__/volunteerHistory.test.js:76-91 | unknown user gives 404; no history array or an out-of-range index gives 400 with nothing changed; otherwise one entry is spliced out |
| BackendServer.MatchVolunteers | backend/server.js:391-397 | throws exactly when some "Volunteer" row has no skill array; otherwise the reference roster for role "Volunteer" |
| BackendServer.RouteTestIsQualifies | backend/server.js:470-473 | the route's test, required skill first, is the matching test |
| BackendServer.Volunteers | backend/server.js:455 | exactly the rows whose `UserRole` is "Volunteer" |
| BackendServer.VolunteersOrder | backend/server.js:455 | the volunteer listing keeps table order and listing it again changes nothing |
| BackendServer.CurrentEvents | backend/server.js:404 | exactly the events whose `EventStatus` is "In Progress" |
| BackendServer.CurrentEventsOrder | backend/server.js:404 | the listing keeps order, is idempotent, and is empty when no event is in progress |
| BackendServer.LoginFieldCheck | backend/server.js:174-179 | the email is checked before the password, the opposite order to the root server; both present lets the request through |
| BackendServer.AdminGate | backend/server.js:249-254 | no session gives 401; a session whose role is not "Manager" gives 403; only a manager gets through |
| BackendServer.Merge | backend/server.js:368-371 | `{...a, ...b}`: the keys of both, with `b`'s value where both have one |
| BackendServer.MergeLaws | backend/server.js:368-371 | merging the same body twice is merging it once, and an empty body changes nothing |
| BackendServer.NewEvent | backend/server.js:338-349 | the appended event has the database id, the seven body fields unchanged and empty matched and selected volunteer lists, and no other key |
| BackendServer.EventIndex | backend/server.js:360 | -1 exactly when no event has the id (always for NaN); otherwise the first event with it |
| BackendServer.TextOr | backend/server.js:605 | `v !== undefined ? v : row[key] \|\| ""`: the sent value, else a truthy stored value, else "" |
| BackendServer.KeepColumn | backend/server.js:603 | a column is replaced when a value is sent and kept otherwise |
| BackendServer.StringArray | backend/server.js:610 | a list of strings as a JSON array of the same length and elements |
| BackendServer.MergeRow | backend/server.js:603-611 | skills and availability become the body's arrays, and no column outside the nine profile columns changes |
| BackendServer.MergeRowKeepsUnsent | backend/server.js:603-604 | full name and first address line change only when the body sends them |
| BackendServer.MergeRowDefaults | backend/server.js:605-609 | the other text columns take the sent value, else keep a truthy stored value, else become "" |
| BackendServer.BackendApp.constructor | backend/server.js:27-28 | the server starts with `users` undefined, since `init` is never called, and no events |
| BackendServer.BackendApp.ReloadUsers | backend/server.js:30-45 | the table becomes the rows read, or stays as it was (undefined included) when the read fails; events untouched |
| BackendServer.BackendApp.Login | backend/server.js:169-179 | the table is reloaded first, then the field check's reply is returned |
| BackendServer.BackendApp.GetUser | backend/server.js:378-385 | throws exactly while the table is undefined; 404 exactly when no row has the `UserID`; otherwise the first row of the table with that id, as `find` returns |
| BackendServer.BackendApp.ListUsers | backend/server.js:310-313 | the table is reloaded as in `fetchUsers`, and the reply is the table after the reload: the rows read, or the previous table (undefined included) when the read fails |
| BackendServer.BackendApp.VolunteerListing | backend/server.js:453-458 | throws exactly while the table is undefined; otherwise the volunteer listing |
| BackendServer.BackendApp.ListEvents | backend/server.js:402-406 | the event list is replaced by the rows read, or kept on failure, and the events in progress are returned |
| BackendServer.BackendApp.CreateEvent | backend/server.js:316-355 | a missing field gives 400 with nothing stored; a skill list that cannot be iterated, or that holds null, throws with nothing stored; any other body gives 201 with exactly the new event appended |
| BackendServer.BackendApp.UpdateEvent | backend/server.js:357-375 | an unknown id gives 404 with the list unchanged; a known one always succeeds: the first event with the id becomes its shallow merge with the body, and the length and every other event are kept |
| BackendServer.BackendApp.MatchRoute | backend/server.js:461-476 | an unknown id gives 404 "Event not found."; otherwise it throws exactly when the table is undefined or the test throws on some row (a "Volunteer" row, when the skills are not an array, or when a skill is required and the row's skills are neither an array nor a string), and else answers 200 with exactly the rows the test accepts: none without a skill array or without a "Volunteer" row, the reference roster when every volunteer has a skill array |
| BackendServer.BackendApp.UpdateProfile | backend/server.js:538-630 | a body without skills or availability throws before the lookup, and so does an undefined table; then an unknown id gives 404; otherwise the first row with that `UserID` alone becomes the merged row |
| BackendServer.RouteAcceptsIsQualifies | backend/server.js:470-473 | on a row whose skills are an array, the route's test is the matching test |
| BackendServer.RouteResultFacts | backend/server.js:470-473 | once nothing throws, the route's filter is empty when the skills are not an array or no row is a "Volunteer", and is the reference roster when every volunteer has a skill array |
| BackendServer.LoadedRowsMatchNobody | backend/server.js:470-473 | over rows without a `role` key, such as the loaded `logininfo` rows, a found event is answered 200 with nobody, whatever its skills |
| BackendServer.StringSkillsMatchBySubstring | backend/server.js:472 | skills held as one string are searched by substring: "Cooking, Sewing" meets "Sewing" and nothing throws |
| BackendTestApp.ProfileChecks | backend/server.test.js:49-71 | the `!x \|\| x.trim() === ""` checks pass exactly when no text is blank and skills is a non-empty array |
| BackendTestApp.SameValidationAsRootTests | backend/server.test.js:49-71 | this file's checks are the checks of `__tests__/volunteerHistory.test.js`, message for message |
| BackendTestApp.TestApp.constructor | backend/server.test.js:11-16 | the table starts as the four seeded users |
| BackendTestApp.TestApp.Login | backend/server.test.js:23-31 | succeeds exactly when some user has the email and the plain-text password; otherwise 401 "Invalid email or password" |
| BackendTestApp.TestApp.AdminLookup | backend/server.test.js:33-40 | succeeds exactly when a user has the id and role "admin"; otherwise 404 "Admin not found" |
| BackendTestApp.TestApp.UpdateUser | backend/server.test.js:42-83 | unknown id gives 404 before validation; a failed check gives its 400; a passing body always succeeds, and that user alone is overwritten with the nine fields |
| BackendTestApp.TestApp.GetHistory | backend/server.test.js:86-92 | 404 exactly when no volunteer has the id; otherwise the stored history as it is |
| BackendTestApp.SeededLookups | backend/server.test.js:11-40 | in the seeded table id 1 is an admin and id 3 is not; Alice logs in with her plain password and not with a wrong one |
| BackendHistoryTestApp.HistoryApp.constructor | backend/tests/volunteerHistory.test.js:11-16 | the table starts as the four seeded users |
| BackendHistoryTestApp.HistoryApp.GetHistory | backend/tests/volunteerHistory.test.js:18-24 | 404 "User not found or not a volunteer" exactly when no volunteer has the id |
| BackendHistoryTestApp.HistoryApp.AddHistory | backend/tests/volunteerHistory.test.js:26-43 | 404 exactly for an unknown user, and success for every known one; with no field checked, the history, [] when missing, gains the four-key entry at its end |
| BackendHistoryTestApp.HistoryApp.DeleteHistory | backend/tests/volunteerHistory.test.js:45-60 | unknown user gives 404; a missing history or out-of-range index gives 400 with nothing changed; otherwise one entry is spliced out |
| BackendHistoryTestApp.DeleteUndoesAdd | backend/tests/volunteerHistory.test.js:39-58 | deleting the last index right after an add gives the old history back |
| FormCommon.CheckboxSkills | front_end_dev/ems/src/pages/Profile/User/userProfile.jsx:32-36 | a checked box appends its value; an unchecked box removes every occurrence and keeps only other skills |
| FormCommon.UncheckUndoesCheck | front_end_dev/ems/src/pages/Profile/User/userProfile.jsx:32-36 | unchecking a box just checked restores the list |
| FormCommon.CheckboxKeepsNoDuplicates | front_end_dev/ems/src/pages/Profile/User/userProfile.jsx:32-36 | a list without repeats keeps none after an uncheck or after checking a new skill |
| FormCommon.ZipInput | front_end_dev/ems/src/pages/Profile/User/userProfile.jsx:182-187 | a value of digits only, the empty one included, replaces the zip; any other leaves it |
| FormCommon.ZipStaysDigits | front_end_dev/ems/src/pages/Profile/User/userProfile.jsx:182-187 | the zip field only ever holds digits |
| FormCommon.ToggleDropdown | front_end_dev/ems/src/pages/Profile/User/userProfile.jsx:83-85 | the flag is negated |
| FormCommon.ToggleTwice | front_end_dev/ems/src/pages/Profile/User/userProfile.jsx:83-85 | toggling twice gives the flag back |
| ProfileForm.SetText | front_end_dev/ems/src/pages/Profile/User/userProfile.jsx:38 | the named field takes the value and every other field is kept |
| ProfileForm.HandleChange | front_end_dev/ems/src/pages/Profile/User/userProfile.jsx:29-40 | a checkbox rewrites only the skills; a text input rewrites only its field |
| ProfileForm.HandleZip | front_end_dev/ems/src/pages/Profile/User/userProfile.jsx:182-187 | the zip changes only to a digits-only value, and nothing else changes |
| ProfileForm.MissingFields | front_end_dev/ems/src/pages/Profile/User/userProfile.jsx:46-51 | exactly the required fields that are empty, no more than the six |
| ProfileForm.NothingMissing | front_end_dev/ems/src/pages/Profile/User/userProfile.jsx:46-51 | nothing is missing exactly when the five texts and the skill list are all non-empty |
| ProfileForm.MissingFieldsOrder | front_end_dev/ems/src/pages/Profile/User/userProfile.jsx:46-51 | an empty name is listed first, and the untouched form misses all six fields in order |
| ProfileForm.Submit | front_end_dev/ems/src/pages/Profile/User/userProfile.jsx:44-62 | the form is sent, unchanged, exactly when nothing is missing |
| ProfileForm.AddAvailability | front_end_dev/ems/src/pages/Profile/User/userProfile.jsx:87-95 | a non-empty date not yet listed is appended and the input cleared; otherwise nothing changes |
| ProfileForm.RemoveAvailability | front_end_dev/ems/src/pages/Profile/User/userProfile.jsx:97-102 | every occurrence of the date goes, only other dates remain, and the rest of the form is kept |
| ProfileForm.RemoveAvailabilityKeepsOrder | front_end_dev/ems/src/pages/Profile/User/userProfile.jsx:97-102 | removal works date by date and keeps the order: it distributes over concatenation, and a single date stays exactly when it is not the one removed |
| ProfileForm.AddAvailabilityKeepsNoDuplicates | front_end_dev/ems/src/pages/Profile/User/userProfile.jsx:87-95 | adding keeps the availability list free of repeats |
| ProfileForm.RemoveAvailabilityKeepsNoDuplicates | front_end_dev/ems/src/pages/Profile/User/userProfile.jsx:97-102 | removing keeps the availability list free of repeats |
| ProfileForm.RemoveUndoesAdd | front_end_dev/ems/src/pages/Profile/User/userProfile.jsx:87-102 | removing a date just added gives the old form back |
| ProfileForm.AddAvailabilityTwice | front_end_dev/ems/src/pages/Profile/User/userProfile.jsx:87-95 | adding the same date again changes nothing |
| LegacyProfileForm.HandleChange | src/pages/Profile/User/userProfile.jsx:26-37 | a checkbox rewrites only the skills; a text input, the date included, rewrites only its field |
| LegacyProfileForm.HandleZip | src/pages/Profile/User/userProfile.jsx:120-125 | the zip changes only to a digits-only value |
| LegacyProfileForm.Submit | src/pages/Profile/User/userProfile.jsx:39-42 | the form is handed over as it stands, with nothing checked |
| LegacyProfileForm.SubmitIsUnchecked | src/pages/Profile/User/userProfile.jsx:39-42 | the untouched form, which the newer revision refuses to send, is handed over by this one |
| LegacyProfileForm.ZipOnlyDigits | src/pages/Profile/User/userProfile.jsx:120-125 | after any sequence of edits and zip inputs the zip holds only digits |
| AdminEvents.DateString | front_end_dev/ems/src/pages/Profile/Admin/EventManagement.jsx:87 | year, month + 1 and day joined by dashes: at least five characters |
| AdminEvents.DateStringInjective | front_end_dev/ems/src/pages/Profile/Admin/EventManagement.jsx:87 | different dates give different strings, negative years included |
| AdminEvents.DateStringUnpadded | front_end_dev/ems/src/pages/Profile/Admin/EventManagement.jsx:87 | no zero padding: January 5th 2025 is "2025-1-5" |
| AdminEvents.HandleEventChange | front_end_dev/ems/src/pages/Profile/Admin/EventManagement.jsx:45-48 | the named text field takes the value; every other field is kept |
| AdminEvents.HandleSkillChange | front_end_dev/ems/src/pages/Profile/Admin/EventManagement.jsx:50-52 | the selected skills are stored, a cleared selection as []; nothing else changes |
| AdminEvents.HandleVolunteerChange | front_end_dev/ems/src/pages/Profile/Admin/EventManagement.jsx:58-60 | the selected volunteers are stored, a cleared selection as []; nothing else changes |
| AdminEvents.HandleDateChange | front_end_dev/ems/src/pages/Profile/Admin/EventManagement.jsx:54-56 | only the date changes |
| AdminEvents.CreateChecksWithPass | front_end_dev/ems/src/pages/Profile/Admin/EventManagement.jsx:64-85 | the guards pass exactly when name, location, manager and urgency are not blank and a skill is chosen; the envoy is never looked at |
| AdminEvents.CreateChecksPass | front_end_dev/ems/src/pages/Profile/Admin/EventManagement.jsx:64-85 | with `trim`, blank means whitespace only |
| AdminEvents.CreateCheckOrderWith | front_end_dev/ems/src/pages/Profile/Admin/EventManagement.jsx:64-85 | the first failing guard in the order name, location, skills, manager, urgency is the alert shown |
| AdminEvents.CreateCheckOrder | front_end_dev/ems/src/pages/Profile/Admin/EventManagement.jsx:64-85 | the same order for the page's `trim` test |
| AdminEvents.OptionValue | front_end_dev/ems/src/pages/Profile/Admin/EventManagement.jsx:140 | reading `.value` of null throws; of an object, gives its `value` |
| AdminEvents.SkillValues | front_end_dev/ems/src/pages/Profile/Admin/EventManagement.jsx:140 | throws exactly when a selected option is null; otherwise includes exactly the options' values |
| AdminEvents.WithProperty | front_end_dev/ems/src/pages/Profile/Admin/EventManagement.jsx:146-149 | sets one property, or drops it for undefined, and keeps every other |
| AdminEvents.VolunteerOption | front_end_dev/ems/src/pages/Profile/Admin/EventManagement.jsx:146-149 | `{ value: id, label: fullName }` of a user |
| AdminEvents.Options | front_end_dev/ems/src/pages/Profile/Admin/EventManagement.jsx:146-149 | one option per user, in order |
| AdminEvents.Roster | front_end_dev/ems/src/pages/Profile/Admin/EventManagement.jsx:140-149 | a result exactly when the skills are an array without null and every volunteer has a skill array; it is the options of the matching roster |
| AdminEvents.RosterIsExact | front_end_dev/ems/src/pages/Profile/Admin/EventManagement.jsx:140-149 | every roster entry is the option of a volunteer sharing a skill, and every such volunteer's option is in the roster |
| AdminEvents.CaughtRoster | front_end_dev/ems/src/pages/Profile/Admin/EventManagement.jsx:240-265 | a failed fetch or a thrown error gives []; otherwise the roster; no skill gives [] |
| AdminEvents.RequestBody | front_end_dev/ems/src/pages/Profile/Admin/EventManagement.jsx:89-93 | the posted body carries the form's fields and selection, the date as its string and the matched roster, and no other key |
| AdminEvents.CreateRequest | front_end_dev/ems/src/pages/Profile/Admin/EventManagement.jsx:63-100 | an alert exactly when a guard fails, naming the first; otherwise a POST of the request body with the caught roster |
| AdminEvents.FieldsPresentIffEnvoy | backend/server.js:318 | a body with the form's non-empty checked texts passes the server's seven-field test exactly when the envoy is not empty |
| AdminEvents.PostedBodyMeetsServerCheck | front_end_dev/ems/src/pages/Profile/Admin/EventManagement.jsx:63-100 | a body the page posts passes the server's field test exactly when the unchecked envoy is filled in |
| AdminEvents.AfterCreate | front_end_dev/ems/src/pages/Profile/Admin/EventManagement.jsx:103-123 | on success one event is appended, with the roster and no selection, and the form is reset; on failure nothing changes |
| AdminEvents.UpdateWhere | front_end_dev/ems/src/pages/Profile/Admin/EventManagement.jsx:207-215 | same length; an event whose `id` equals the key is merged with the patch and every other event is kept |
| AdminEvents.RosterPatch | front_end_dev/ems/src/pages/Profile/Admin/EventManagement.jsx:211-212 | matched and selected volunteers both become the roster |
| AdminEvents.HandleMatchVolunteers | front_end_dev/ems/src/pages/Profile/Admin/EventManagement.jsx:178-238 | a failed fetch, no event with that `EventID`, or a throw while matching leaves the list; otherwise every event whose `id` equals the key gets the roster as both matched and selected volunteers, and no other event or key changes |
| AdminEvents.SelectVolunteers | front_end_dev/ems/src/pages/Profile/Admin/EventManagement.jsx:313-319 | only events whose `id` equals the key change, and only their selected volunteers |
| AdminEvents.ServerRowsNeverUpdated | front_end_dev/ems/src/pages/Profile/Admin/EventManagement.jsx:188-215 | on rows that carry `EventID` but no `id`, matching and selecting change nothing |
| AdminEvents.UndefinedIdSelectsServerRows | front_end_dev/ems/src/pages/Profile/Admin/EventManagement.jsx:313-319 | a card passing an undefined `EventID` updates exactly the rows that have no `id` |
| EventsForm.HandleEventChange | front_end_dev/ems/Events_form/src/components/EventManagement.js:18-21 | only the named field changes |
| EventsForm.HandleDateChange | front_end_dev/ems/Events_form/src/components/EventManagement.js:23-25 | only the date changes |
| EventsForm.CreateEvent | front_end_dev/ems/Events_form/src/components/EventManagement.js:27-36 | the form is appended as an event with id old length + 1 and the form is reset; the helper lists are kept |
| EventsForm.Numbered | front_end_dev/ems/Events_form/src/components/EventManagement.js:39 | the name is the title, a space and the number |
| EventsForm.NumberedInjective | front_end_dev/ems/Events_form/src/components/EventManagement.js:39 | different numbers give different names |
| EventsForm.AddHelper | front_end_dev/ems/Events_form/src/components/EventManagement.js:38-46 | one entry for the event is appended, named by the new length |
| EventsForm.RemoveHelper | front_end_dev/ems/Events_form/src/components/EventManagement.js:48-54 | every entry with the name goes and only the others remain |
| EventsForm.RemoveHelperKeepsOrder | front_end_dev/ems/Events_form/src/components/EventManagement.js:48-54 | removal works entry by entry and keeps the order: it distributes over concatenation, and a single entry stays exactly when it has another name |
| EventsForm.AddVolunteer | front_end_dev/ems/Events_form/src/components/EventManagement.js:38-41 | only the volunteer list changes, by one appended entry |
| EventsForm.AddManager | front_end_dev/ems/Events_form/src/components/EventManagement.js:43-46 | only the manager list changes, by one appended entry |
| EventsForm.RemoveVolunteer | front_end_dev/ems/Events_form/src/components/EventManagement.js:48-50 | only the volunteer list changes |
| EventsForm.RemoveManager | front_end_dev/ems/Events_form/src/components/EventManagement.js:52-54 | only the manager list changes |
| EventsForm.RemoveVolunteerButton | front_end_dev/ems/Events_form/src/components/EventManagement.js:128 | any card's button removes the volunteer named by the current length |
| EventsForm.RemoveManagerButton | front_end_dev/ems/Events_form/src/components/EventManagement.js:129 | any card's button removes the manager named by the current length |
| EventsForm.DeleteEvent | front_end_dev/ems/Events_form/src/components/EventManagement.js:57-60 | the events with the id and the volunteers of that id go; managers and the form are kept |
| EventsForm.Count | front_end_dev/ems/Events_form/src/components/EventManagement.js:124-125 | the count is zero exactly when no entry carries the event id |
| EventsForm.CountIsNumberWithId | front_end_dev/ems/Events_form/src/components/EventManagement.js:124-125 | the count is the number of entries with the id: 0 for none, and one more exactly when an entry with the id is appended |
| EventsForm.AddKeepsNames | front_end_dev/ems/Events_form/src/components/EventManagement.js:38-46 | adding keeps names in step with positions |
| EventsForm.RemoveNumberedUndoesAdd | front_end_dev/ems/Events_form/src/components/EventManagement.js:38-54 | while names follow positions, removing the name one past the old length right after an add gives back the old list |
| EventsForm.RemoveButtonUndoesAdd | front_end_dev/ems/Events_form/src/components/EventManagement.js:128 | while names follow positions, "Remove Volunteer" right after "Add Volunteer" gives back the whole board |
| EventsForm.RemoveManagerButtonUndoesAdd | front_end_dev/ems/Events_form/src/components/EventManagement.js:127-129 | while names follow positions, "Remove Manager" right after "Add Manager" gives back the whole board |
| EventsForm.AddCounts | front_end_dev/ems/Events_form/src/components/EventManagement.js:124-125 | adding raises that event's count by one and leaves other counts alone |
| EventsForm.DeleteCounts | front_end_dev/ems/Events_form/src/components/EventManagement.js:57-60 | after a delete the event has no volunteers but keeps its managers |
| EventsForm.CreateKeepsIds | front_end_dev/ems/Events_form/src/components/EventManagement.js:28 | while nothing is deleted, ids follow positions and stay distinct |
| EventsForm.DeleteThenCreateReusesId | front_end_dev/ems/Events_form/src/components/EventManagement.js:28 | numbering by length reuses an id after a delete: two events end up with id 2 |
| EventsForm.DeleteThenAddReusesName | front_end_dev/ems/Events_form/src/components/EventManagement.js:39 | numbering by length reuses a name, and the remove button then removes both entries |

## Left out

- MySQL: every `db.query`, `db.js` and `backend/db.js`. The rows a read returns are arguments, such as the reloaded user table, the fetched events and the insert id. The writes are not modelled, and neither are database errors, which the handlers rethrow.
- bcrypt: `hash` and `compare` are function parameters. The background re-hashing of the seed passwords is not modelled.
- Sessions, cookies, CORS, `app.listen` and Express routing: each handler is a member that takes the session user, the parsed route parameters and the body. A route parameter that `parseInt` turns into NaN is an id no user has, or None where the code compares it.
- Login, registration and profile reads of `backend/server.js` that go to the database. This covers its register route, the login query, the admin profile query, `GET /api/profile/:id`, DELETE of an event and the volunteer-history routes. Only their guards are modelled.
- Root `server.js` routes built on undeclared `events`, and its other event routes: PUT/GET/DELETE of events, match-volunteers, matched-volunteers. They fail with a ReferenceError or are database-only. `backend/server.js`'s `POST /api/volunteers` uses an undeclared `volunteers`, and is left out for the same reason.
- `GET /api/profile`, logout, `/api/test`, `/api/isLoggedIn`: these are plain reads with no logic. (`GET /api/users` reloads the table first and is modelled as `BackendApp.ListUsers`.)
- The session copy that `PUT /api/profile/:id` of the back end builds: it is written to the session and not read back by anything modelled.
- BackendServer.InProgress: the loose `==` on `EventStatus` is modelled as string equality. Values of other types that would compare equal are not modelled.
- RootServer.UserStore.Register: role and skills are strings and string lists. A `null` role, which destructuring defaults do not replace, is not modelled.
- Records.ProfileChecksWith: the skills of a body are a list of strings or absent. A non-empty skills value that is not an array, such as a string, is not modelled; `backend/server.test.js` accepts it and `Array.isArray` refuses it.
- RootServer.HistoryChecks: the body's fields are strings or string lists. Other JSON types are not modelled.
- RootServer.UserStore.Register: handlers are modelled one request at a time. In `server.js`, `await bcrypt.hash` sits between the duplicate-email check and the push, so two overlapping registrations with the same email can both be appended; `EmailsDistinct` (kept by `Valid`) holds only for requests that do not overlap.
- BackendServer.BackendApp.UpdateProfile: the body is typed, with skills and availability as string lists or absent. In `backend/server.js`, the `for…of` loops walk a string character by character without throwing and the string is then stored as it is; a `null` or an object throws; and any JSON value sent for a text field is stored. Those bodies are not represented.
- BackendServer.BackendApp.CreateEvent and BackendServer.BackendApp.UpdateProfile: here `Threw` is an error nobody catches. CreateEvent's skill loop throws inside the database callback, and UpdateProfile is an `async` handler whose rejected promise Express 4 ignores. No reply is sent, and by default Node ends the process on the uncaught exception or unhandled rejection, losing the in-memory `users` and `events`. The model only states that the tables are unchanged at that point; the process exit is not modelled.
- RootServer.MergeProfile: profile bodies are typed, text fields as strings and lists as string lists. The handler stores any value that is not `undefined`, so a `null`, a number or an object sent for a field is stored as it is; the model does not represent those bodies.
- Records.OverwriteProfile: the same typed bodies. The handlers written in the test files assign the unchecked fields (`address2`, `preferences`, `availability`) whatever they are sent, such as a number or `null`, and the model does not represent those values.
- Records.SkillsMeet: only skill lists are modelled. A skill held as a string, where `includes` would match a substring, is not.
- JSON numbers are integers in the model (`JNum` holds an `int`). Fractional numbers, `NaN`, and the rounding of integers above 2^53 that JavaScript's doubles perform are not modelled; ids, counts and insert ids are whole numbers in every modelled path.
- `maxLength` on inputs, `toLocaleDateString`/`toDateString`, React rendering, `alert` display, and `window.location.reload`.
- AdminEvents.AfterCreate: the `fetchEvents` that races the local update is not modelled. The local update is applied to the list as it was when the handler started.
- AdminEvents.HandleMatchVolunteers: the fire-and-forget PUT it sends is not modelled, only the state change. The fetched user table is taken to be an array of objects.
- AdminEvents.SelectVolunteers: the fire-and-forget PUT to `/api/events/:id` it sends is not modelled either, only the state change.
- The `matchedVolunteers` key that appears in the admin page's form only after its first reset is not modelled, because nothing reads it from the form.
- `handleDeleteEvent` of the admin page is a fetch followed by a reload, with no state change to model.
- The handlers in `__tests__/volunteerHistory.test.js` are registered after the root server's own routes, so Express would serve the root server's POST and DELETE first. Each file's handlers are modelled on their own.
