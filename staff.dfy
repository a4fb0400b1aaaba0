/** The staff page: the coaches and support staff among the users, the
    search over them, the students-count on a coach's card, and the payload
    the staff form saves. */
module Staff {
  import opened Wrappers
  import opened Records
  import Json
  import Api
  import Text
  import Seqs

  predicate IsStaff(u: User) {
    u.role == Some("coach") || u.role == Some("support")
  }

  /** The staff are the users whose role is 'coach' or 'support', in their
      order. */
  function StaffOf(users: seq<User>): (r: seq<User>)
    ensures forall u :: u in r <==> u in users && IsStaff(u)
    ensures forall i :: 0 <= i < |r| ==> IsStaff(r[i])
    ensures Seqs.IsSubsequence(r, users)
    ensures |r| == |set i: nat | i < |users| && IsStaff(users[i])|
  {
    Seqs.FilterIsSubsequence(users, IsStaff);
    Seqs.FilterCount(users, IsStaff);
    assert Seqs.Passing(users, IsStaff) == set i: nat | i < |users| && IsStaff(users[i]);
    Seqs.Filter(users, IsStaff)
  }

  /** The search test: the lower-cased name or role contains the lower-cased
      term, or the phone contains the term as typed. A missing field never
      matches. */
  predicate Matches(s: User, term: string) {
    || FieldHas(s.name, term)
    || (s.phone.Some? && Text.Contains(s.phone.value, term))
    || FieldHas(s.role, term)
  }

  /** The search filter; it has no guard for an empty term. */
  function Search(staff: seq<User>, term: string): (r: seq<User>)
    ensures forall s :: s in r <==> s in staff && Matches(s, term)
    ensures Seqs.IsSubsequence(r, staff)
    ensures |r| == |set i: nat | i < |staff| && Matches(staff[i], term)|
  {
    Seqs.FilterIsSubsequence(staff, s => Matches(s, term));
    Seqs.FilterCount(staff, s => Matches(s, term));
    assert Seqs.Passing(staff, s => Matches(s, term)) == set i: nat | i < |staff| && Matches(staff[i], term);
    Seqs.Filter(staff, s => Matches(s, term))
  }

  /** With an empty term a member is kept exactly when it has a name, a
      phone or a role. */
  lemma EmptyTermNeedsSomeField(s: User)
    ensures Matches(s, "") <==> s.name.Some? || s.phone.Some? || s.role.Some?
  {
    Text.ContainsEmpty(Text.Lower(s.name.GetOr("")), "");
    Text.ContainsEmpty(s.phone.GetOr(""), "");
    Text.ContainsEmpty(Text.Lower(s.role.GetOr("")), "");
  }

  /** Every staff member has a role, so an empty search shows all of them. */
  lemma {:induction false} EmptySearchShowsAllStaff(users: seq<User>)
    ensures Search(StaffOf(users), "") == StaffOf(users)
  {
    var staff := StaffOf(users);
    forall i | 0 <= i < |staff|
      ensures Matches(staff[i], "")
    {
      EmptyTermNeedsSomeField(staff[i]);
    }
    Seqs.FilterAll(staff, s => Matches(s, ""));
  }

  /** A coach's card shows its students count, or 0 when it is missing. */
  function StudentsShown(member: User): (r: int)
    ensures member.studentsCount.Some? && member.studentsCount.value != 0 ==> r == member.studentsCount.value
    ensures member.studentsCount.None? ==> r == 0
    ensures member.studentsCount == Some(0) ==> r == 0
  {
    member.studentsCount.GetOr(0)
  }

  /** The staff form's fields, all text. */
  datatype StaffForm = StaffForm(
    name: string, phone: string, email: string, password: string, role: string,
    specialization: string, experience: string)

  /** The form as it opens: a member's values with the password empty and the
      role defaulting to 'coach'; for a new member, all empty with role
      'coach'. */
  function InitialForm(staff: Option<User>): (f: StaffForm)
    ensures f.password == "" && f.role != ""
    ensures staff.None? ==> f == StaffForm("", "", "", "", "coach", "", "")
    ensures staff.Some? && OrEmpty(staff.value.role) != "" ==> f.role == staff.value.role.value
    ensures staff.Some? && OrEmpty(staff.value.role) == "" ==> f.role == "coach"
    ensures staff.Some? ==>
              f.name == OrEmpty(staff.value.name) && f.phone == OrEmpty(staff.value.phone) &&
              f.email == OrEmpty(staff.value.email) && f.specialization == OrEmpty(staff.value.specialization) &&
              f.experience == OrEmpty(staff.value.experience)
  {
    match staff
    case None => StaffForm("", "", "", "", "coach", "", "")
    case Some(s) =>
      StaffForm(OrEmpty(s.name), OrEmpty(s.phone), OrEmpty(s.email), "",
        if OrEmpty(s.role) != "" then s.role.value else "coach",
        OrEmpty(s.specialization), OrEmpty(s.experience))
  }

  function FormFields(f: StaffForm): map<string, Json.Value> {
    map[
      "name" := Json.JStr(f.name), "phone" := Json.JStr(f.phone), "email" := Json.JStr(f.email),
      "password" := Json.JStr(f.password), "role" := Json.JStr(f.role),
      "specialization" := Json.JStr(f.specialization), "experience" := Json.JStr(f.experience)]
  }

  /** `StaffFormModal.handleSubmit`: editing upserts the form with the
      member's id; adding creates it without one. */
  function SaveCall(staff: Option<User>, f: StaffForm): (r: Api.Call)
    ensures staff.Some? <==> r.UpsertUser?
    ensures staff.None? <==> r.CreateUser?
    ensures r.data.Keys == FormFields(f).Keys + (if staff.Some? then {"id"} else {})
    ensures "role" in r.data && r.data["role"] == Json.JStr(f.role)
    ensures "password" in r.data && r.data["password"] == Json.JStr(f.password)
    ensures staff.Some? ==> "id" in r.data && r.data["id"] == Json.JStr(staff.value.id)
  {
    var tail := map["role" := Json.JStr(f.role)];
    match staff
    case Some(s) => Api.UpsertUser(map["id" := Json.JStr(s.id)] + FormFields(f) + tail)
    case None => Api.CreateUser(FormFields(f) + tail)
  }

  /** Saving an unedited form for an existing member sends an empty
      password. */
  lemma UneditedSaveSendsEmptyPassword(s: User)
    ensures var call := SaveCall(Some(s), InitialForm(Some(s)));
            "password" in call.data && call.data["password"] == Json.JStr("")
  {
  }
}
