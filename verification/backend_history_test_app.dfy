/** The stand-alone application `backend/tests/volunteerHistory.test.js` builds: its own four-user
    table and volunteer-history routes without any field validation. */
module BackendHistoryTestApp {
  import opened JsCore
  import opened Records

  class HistoryApp {
    var users: seq<User>

    ghost predicate Valid()
      reads this
    {
      IdsArePositions(users) && EmailsDistinct(users)
    }

    constructor ()
      ensures Valid() && users == TestSeedUsers()
    {
      users := TestSeedUsers();
    }

    /** `GET /api/user/:id/volunteer-history`: a volunteer's stored history. */
    function GetHistory(userId: int): (r: Reply<Option<seq<HistoryEntry>>>)
      reads this
      ensures r.Fail? <==> forall i :: 0 <= i < |users| ==> !(users[i].id == userId && users[i].role == Some("volunteer"))
      ensures r.Fail? ==> r == Fail(404, "User not found or not a volunteer")
      ensures r.Done? ==> exists i :: 0 <= i < |users| && users[i].id == userId && users[i].role == Some("volunteer")
                                      && r.payload == users[i].volunteerHistory
      ensures r.Done? ==> r.status == 200
      ensures !r.Threw?
    {
      var k := VolunteerIndex(users, userId);
      if k == -1 then Fail(404, "User not found or not a volunteer") else Done(200, "", users[k].volunteerHistory)
    }

    /** `POST /api/volunteer-history/:id`: any existing user gets the four-key entry at the end of
        its history, which starts as [] when missing; nothing in the body is checked. */
    method AddHistory(userId: int, event: Option<string>, location: Option<string>, date: Option<string>,
                      status: Option<string>) returns (r: Reply<seq<HistoryEntry>>)
      requires Valid()
      modifies this
      ensures Valid()
      ensures (forall i :: 0 <= i < |old(users)| ==> old(users)[i].id != userId) <==> r == Fail(404, "User not found")
      ensures r.Fail? ==> users == old(users)
      ensures IndexOfId(old(users), userId) >= 0 ==> r.Done?
      ensures r.Done? ==>
                var k := IndexOfId(old(users), userId);
                k >= 0 && r.status == 200 && r.message == "Volunteer history updated successfully"
                && r.payload == old(users)[k].volunteerHistory.GetOr([]) + [BriefEntry(event, location, date, status)]
                && users == old(users)[k := old(users)[k].(volunteerHistory := Some(r.payload))]
      ensures !r.Threw?
    {
      var k := IndexOfId(users, userId);
      if k == -1 {
        return Fail(404, "User not found");
      }
      var history := users[k].volunteerHistory.GetOr([]) + [BriefEntry(event, location, date, status)];
      users := users[k := users[k].(volunteerHistory := Some(history))];
      r := Done(200, "Volunteer history updated successfully", history);
    }

    /** `DELETE /api/volunteer-history/:id/:eventIndex`: a missing history or an index outside it is
        refused with nothing changed; otherwise one entry is spliced out. */
    method DeleteHistory(userId: int, eventIndex: Option<int>) returns (r: Reply<seq<HistoryEntry>>)
      requires Valid()
      modifies this
      ensures Valid()
      ensures (forall i :: 0 <= i < |old(users)| ==> old(users)[i].id != userId) ==>
                r == Fail(404, "User not found") && users == old(users)
      ensures r.Fail? ==> users == old(users)
      ensures var k := IndexOfId(old(users), userId);
              k >= 0 ==>
                var h := old(users)[k].volunteerHistory;
                if h.None? || IndexRejected(h.value, eventIndex) then r == Fail(400, "Invalid event index")
                else r == Done(200, "Volunteer event removed successfully", SpliceOne(h.value, eventIndex))
                     && users == old(users)[k := old(users)[k].(volunteerHistory := Some(r.payload))]
      ensures !r.Threw?
    {
      var k := IndexOfId(users, userId);
      if k == -1 {
        return Fail(404, "User not found");
      }
      var h := users[k].volunteerHistory;
      if h.None? || IndexRejected(h.value, eventIndex) {
        return Fail(400, "Invalid event index");
      }
      var history := SpliceOne(h.value, eventIndex);
      users := users[k := users[k].(volunteerHistory := Some(history))];
      r := Done(200, "Volunteer event removed successfully", history);
    }
  }

  /** Adding an entry and then deleting the last index gives the old history back, for a user
      that already had a history array. */
  lemma DeleteUndoesAdd(history: seq<HistoryEntry>, e: HistoryEntry)
    ensures !IndexRejected(history + [e], Some(|history|))
    ensures SpliceOne(history + [e], Some(|history|)) == history
  {
    assert (history + [e])[..|history|] == history;
  }
}
