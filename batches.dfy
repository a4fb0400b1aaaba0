/** The batches page: each batch's student count, the students modal, the
    coach label on a card, and the batch form's submission. */
module Batches {
  import opened Wrappers
  import opened Records
  import Json
  import Api
  import Seqs

  /** A batch as the page lists it: the loaded batch with its student count
      added. */
  datatype CountedBatch = CountedBatch(batch: Batch, studentCount: nat)

  /** Whether a user is in the batch with id `id`. */
  predicate InBatch(u: User, id: string) {
    u.batchId == Some(id)
  }

  /** The number of users whose `batchId` is `id`. */
  function StudentCount(users: seq<User>, id: string): (n: nat)
    ensures n <= |users|
    ensures n == |set i: nat | i < |users| && InBatch(users[i], id)|
    ensures n == 0 <==> forall i :: 0 <= i < |users| ==> !InBatch(users[i], id)
  {
    var n := Seqs.Count(users, u => InBatch(u, id));
    assert Seqs.Passing(users, u => InBatch(u, id)) == set i: nat | i < |users| && InBatch(users[i], id);
    assert forall i :: 0 <= i < |users| && InBatch(users[i], id) ==> i in Seqs.Passing(users, u => InBatch(u, id));
    n
  }

  /** `loadData`: every loaded batch, in order and unchanged, with the number
      of loaded users in it. */
  function WithCounts(batches: seq<Batch>, users: seq<User>): (r: seq<CountedBatch>)
    ensures |r| == |batches|
    ensures forall i :: 0 <= i < |batches| ==> r[i].batch == batches[i] && r[i].studentCount == StudentCount(users, batches[i].id)
  {
    seq(|batches|, i requires 0 <= i < |batches| => CountedBatch(batches[i], StudentCount(users, batches[i].id)))
  }

  /** `viewingBatch?.id`: the id of the viewed batch, or undefined. */
  function ViewedId(viewing: Option<Batch>): Option<string> {
    match viewing
    case Some(b) => Some(b.id)
    case None => None
  }

  /** The students modal: the loaded users whose `batchId` is the viewed
      batch's id. With no batch viewed, that is the users without a batch. */
  function BatchStudents(users: seq<User>, viewing: Option<Batch>): (r: seq<User>)
    ensures forall u :: u in r <==> u in users && u.batchId == ViewedId(viewing)
    ensures Seqs.IsSubsequence(r, users)
    ensures |r| == |set i: nat | i < |users| && users[i].batchId == ViewedId(viewing)|
  {
    var p := (u: User) => u.batchId == ViewedId(viewing);
    Seqs.FilterIsSubsequence(users, p);
    Seqs.FilterCount(users, p);
    assert Seqs.Passing(users, p) == set i: nat | i < |users| && users[i].batchId == ViewedId(viewing);
    Seqs.Filter(users, p)
  }

  /** The modal opened from a card lists as many students as the card
      counts, since both come from the same load. */
  lemma StudentsMatchCount(batches: seq<Batch>, users: seq<User>, i: nat)
    requires i < |batches|
    ensures |BatchStudents(users, Some(batches[i]))| == WithCounts(batches, users)[i].studentCount
  {
    var id := batches[i].id;
    assert (set k: nat | k < |users| && users[k].batchId == ViewedId(Some(batches[i]))) ==
           (set k: nat | k < |users| && InBatch(users[k], id));
  }

  /** `studentCount || 0`: the count, or 0 when there is none. */
  function CardCount(studentCount: Option<nat>): nat {
    studentCount.GetOr(0)
  }

  /** Every card shows the number of students its modal lists. */
  lemma CardShowsStudents(batches: seq<Batch>, users: seq<User>, i: nat)
    requires i < |batches|
    ensures CardCount(Some(WithCounts(batches, users)[i].studentCount)) == |BatchStudents(users, Some(batches[i]))|
  {
    StudentsMatchCount(batches, users, i);
  }

  /** The coach label on a card: the batch's own coach name if it is not
      empty, else the name of the first coach whose id is the batch's
      `coachId` if that is not empty, else 'Not Assigned'. */
  function CoachLabel(b: Batch, coaches: seq<User>): (r: string)
    ensures r != ""
    ensures b.coach.Some? && b.coach.value != "" ==> r == b.coach.value
    ensures OrEmpty(b.coach) == "" && (forall i :: 0 <= i < |coaches| ==> Some(coaches[i].id) != b.coachId) ==> r == "Not Assigned"
    ensures r != "Not Assigned" && OrEmpty(b.coach) == "" ==>
              exists i :: 0 <= i < |coaches| && Some(coaches[i].id) == b.coachId && coaches[i].name == Some(r)
    ensures OrEmpty(b.coach) == "" ==>
              forall k ::
                0 <= k < |coaches| && Some(coaches[k].id) == b.coachId &&
                (forall j :: 0 <= j < k ==> Some(coaches[j].id) != b.coachId)
                ==> r == if OrEmpty(coaches[k].name) != "" then coaches[k].name.value else "Not Assigned"
  {
    if OrEmpty(b.coach) != "" then b.coach.value
    else match Seqs.Find(coaches, (c: User) => Some(c.id) == b.coachId)
      case Some(c) => if OrEmpty(c.name) != "" then c.name.value else "Not Assigned"
      case None => "Not Assigned"
  }

  /** The batch form's fields, all text. */
  datatype BatchForm = BatchForm(name: string, schedule: string, coachId: string, coach: string, status: string, description: string)

  /** The form as it opens: a batch's values (missing ones as "", the status
      as 'active'), or empty fields and status 'active' for a new batch. */
  function InitialForm(batch: Option<Batch>): (f: BatchForm)
    ensures f.status != ""
    ensures batch.None? ==> f == BatchForm("", "", "", "", "active", "")
    ensures batch.Some? ==> f.coachId == OrEmpty(batch.value.coachId) && f.coach == OrEmpty(batch.value.coach)
  {
    match batch
    case None => BatchForm("", "", "", "", "active", "")
    case Some(b) =>
      BatchForm(OrEmpty(b.name), OrEmpty(b.schedule), OrEmpty(b.coachId), OrEmpty(b.coach),
        if OrEmpty(b.status) != "" then b.status.value else "active", OrEmpty(b.description))
  }

  /** The coach name sent on submit: the name of the first coach whose id is
      the form's `coachId` if that is not empty, else the form's coach. */
  function SubmittedCoach(f: BatchForm, coaches: seq<User>): (r: string)
    ensures (forall i :: 0 <= i < |coaches| ==> coaches[i].id != f.coachId) ==> r == f.coach
    ensures r != f.coach ==> exists i :: 0 <= i < |coaches| && coaches[i].id == f.coachId && coaches[i].name == Some(r)
    ensures forall k ::
              0 <= k < |coaches| && coaches[k].id == f.coachId &&
              (forall j :: 0 <= j < k ==> coaches[j].id != f.coachId)
              ==> r == if OrEmpty(coaches[k].name) != "" then coaches[k].name.value else f.coach
  {
    match Seqs.Find(coaches, (c: User) => c.id == f.coachId)
    case Some(c) => if OrEmpty(c.name) != "" then c.name.value else f.coach
    case None => f.coach
  }

  function SubmitData(f: BatchForm, coaches: seq<User>): map<string, Json.Value> {
    map[
      "name" := Json.JStr(f.name), "schedule" := Json.JStr(f.schedule), "coachId" := Json.JStr(f.coachId),
      "coach" := Json.JStr(SubmittedCoach(f, coaches)), "status" := Json.JStr(f.status),
      "description" := Json.JStr(f.description)]
  }

  /** `BatchFormModal.handleSubmit`: an edited batch is updated with its id,
      a new one created without an id; both carry the form and the coach
      name chosen above. */
  function SubmitCall(batch: Option<Batch>, f: BatchForm, coaches: seq<User>): (r: Api.Call)
    ensures batch.Some? <==> r.UpdateBatch?
    ensures batch.None? <==> r.CreateBatch?
    ensures batch.Some? ==> "id" in r.data && r.data["id"] == Json.JStr(batch.value.id)
    ensures batch.None? ==> "id" !in r.data
    ensures "coach" in r.data && r.data["coach"] == Json.JStr(SubmittedCoach(f, coaches))
    ensures "coachId" in r.data && r.data["coachId"] == Json.JStr(f.coachId)
    ensures "name" in r.data && r.data["name"] == Json.JStr(f.name)
  {
    match batch
    case Some(b) => Api.UpdateBatch(map["id" := Json.JStr(b.id)] + SubmitData(f, coaches))
    case None => Api.CreateBatch(SubmitData(f, coaches))
  }

  /** Submitting an unedited form for a batch that names its coach sends
      that coach again when no listed coach has the batch's `coachId`. */
  lemma UneditedSubmitKeepsCoach(b: Batch, coaches: seq<User>)
    requires forall i :: 0 <= i < |coaches| ==> coaches[i].id != OrEmpty(b.coachId)
    ensures var call := SubmitCall(Some(b), InitialForm(Some(b)), coaches);
            "coach" in call.data && call.data["coach"] == Json.JStr(OrEmpty(b.coach))
  {
  }
}
