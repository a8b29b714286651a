/** Skill matching over user rows held as plain JSON objects, as the back end and the event
    page see them: `user.role === role && user.skills.some(skill => requiredSkills.includes(skill))`. */
module JsonRows {
  import opened JsCore
  import opened JsArray

  /** `u.role === role`. */
  predicate HasRole(u: Object, role: string) {
    Get(u, "role") == Some(JStr(role))
  }

  /** `u.skills` when it is an array; None for anything on which `.some` or `.includes` throws. */
  function SkillArray(u: Object): (r: Option<seq<Json>>)
    ensures r.Some? <==> "skills" in u && u["skills"].JArr?
    ensures r.Some? ==> u["skills"] == JArr(r.value)
  {
    match Get(u, "skills")
    case Some(JArr(items)) => Some(items)
    case _ => None
  }

  /** A user the matching keeps: the wanted role, a skill array, and a skill among the required. */
  predicate Qualifies(u: Object, role: string, requiredSkills: seq<Json>) {
    HasRole(u, role) && SkillArray(u).Some? && SharesElement(SkillArray(u).value, requiredSkills)
  }

  /** Reference definition of the matching roster: the qualifying users, in table order. */
  function Matching(users: seq<Object>, role: string, requiredSkills: seq<Json>): (r: seq<Object>)
    ensures |r| <= |users|
    ensures forall u :: u in r <==> u in users && Qualifies(u, role, requiredSkills)
    ensures requiredSkills == [] ==> r == []
  {
    if users == [] then []
    else (if Qualifies(users[0], role, requiredSkills) then [users[0]] else []) + Matching(users[1..], role, requiredSkills)
  }

  /** Any one-pass filter whose test is the matching test yields the roster. */
  lemma {:induction false} FilterIsMatching(users: seq<Object>, role: string, requiredSkills: seq<Json>, p: Object -> bool)
    requires forall u: Object :: p(u) == Qualifies(u, role, requiredSkills)
    ensures Filter(users, p) == Matching(users, role, requiredSkills)
  {
    if users != [] {
      FilterIsMatching(users[1..], role, requiredSkills, p);
    }
  }

  /** The roster of a longer table extends the roster of its prefix: matching keeps table order. */
  lemma {:induction false} MatchingAppend(a: seq<Object>, b: seq<Object>, role: string, requiredSkills: seq<Json>)
    ensures Matching(a + b, role, requiredSkills) == Matching(a, role, requiredSkills) + Matching(b, role, requiredSkills)
  {
    if a == [] {
      assert a + b == b;
    } else {
      assert (a + b)[0] == a[0] && (a + b)[1..] == a[1..] + b;
      MatchingAppend(a[1..], b, role, requiredSkills);
    }
  }

  /** Rows as the database returns them carry `UserRole`, not `role`: such a table matches nobody. */
  lemma RowsWithoutRoleMatchNobody(users: seq<Object>, role: string, requiredSkills: seq<Json>)
    requires forall i :: 0 <= i < |users| ==> "role" !in users[i]
    ensures Matching(users, role, requiredSkills) == []
  {
  }
}
