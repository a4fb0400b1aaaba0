/** The attendance page: the status shown for a player on the selected date,
    and marking attendance, which updates the player's record for that date
    or creates one, and then reloads the list. */
module AttendanceMarking {
  import opened Wrappers
  import opened Records
  import Json
  import Api
  import Seqs

  /** The text the page sends for a status. */
  function StatusText(s: AttendanceStatus): string {
    match s
    case Present => "present"
    case Absent => "absent"
    case Late => "late"
  }

  /** The first record of `records` for this player on this date. */
  function RecordOf(records: seq<Attendance>, playerId: string, date: string): (r: Option<Attendance>)
    ensures r.None? <==> forall i :: 0 <= i < |records| ==> !(records[i].userId == playerId && records[i].date == date)
    ensures r.Some? ==> r.value in records && r.value.userId == playerId && r.value.date == date
    ensures forall k ::
              0 <= k < |records| && records[k].userId == playerId && records[k].date == date &&
              (forall j :: 0 <= j < k ==> !(records[j].userId == playerId && records[j].date == date))
              ==> r == Some(records[k])
  {
    Seqs.Find(records, (a: Attendance) => a.userId == playerId && a.date == date)
  }

  /** `getAttendanceStatus`: the status of the player's first record on the
      date, or none. */
  function StatusOf(records: seq<Attendance>, playerId: string, date: string): (r: Option<AttendanceStatus>)
    ensures r.None? <==> forall i :: 0 <= i < |records| ==> !(records[i].userId == playerId && records[i].date == date)
    ensures r.Some? ==> exists i :: 0 <= i < |records| && records[i].userId == playerId && records[i].date == date && records[i].status == r.value
    ensures forall k ::
              0 <= k < |records| && records[k].userId == playerId && records[k].date == date &&
              (forall j :: 0 <= j < k ==> !(records[j].userId == playerId && records[j].date == date))
              ==> r == Some(records[k].status)
  {
    match RecordOf(records, playerId, date)
    case Some(a) => Some(a.status)
    case None => None
  }

  /** At most one record per player and date. */
  ghost predicate OnePerDay(records: seq<Attendance>) {
    forall i, j :: 0 <= i < j < |records| ==> !(records[i].userId == records[j].userId && records[i].date == records[j].date)
  }

  /** No two records share an id. */
  ghost predicate DistinctIds(records: seq<Attendance>) {
    forall i, j :: 0 <= i < j < |records| ==> records[i].id != records[j].id
  }

  /** How the backend applies an update: the record with the given id takes
      the sent status, date, player and marker; its batch is kept. */
  function Updated(records: seq<Attendance>, id: string, status: AttendanceStatus, date: string, playerId: string, markedBy: string): (r: seq<Attendance>)
    ensures |r| == |records|
    ensures forall i :: 0 <= i < |records| && records[i].id != id ==> r[i] == records[i]
    ensures forall i :: 0 <= i < |records| && records[i].id == id ==>
              r[i] == Attendance(id, date, playerId, records[i].batchId, status, markedBy)
  {
    seq(|records|, i requires 0 <= i < |records| =>
      if records[i].id == id then Attendance(id, date, playerId, records[i].batchId, status, markedBy) else records[i])
  }

  /** The page. `stored` stands for the records the backend keeps, which
      `loadData` fetches; `attendance` is the list the page last loaded. */
  class AttendancePage {
    var stored: seq<Attendance>
    var attendance: seq<Attendance>
    var selectedDate: string
    /** The signed-in user's id, if any. */
    const userId: Option<string>

    constructor (stored: seq<Attendance>, selectedDate: string, userId: Option<string>)
      ensures this.stored == stored && attendance == stored
      ensures this.selectedDate == selectedDate && this.userId == userId
    {
      this.stored := stored;
      attendance := stored;
      this.selectedDate := selectedDate;
      this.userId := userId;
    }

    /** The id the page sends as `markedBy`: `user?.id || ''`. */
    function MarkedBy(): string
      reads this
    {
      OrEmpty(userId)
    }

    /** `markAttendance`: look for the player's record on the selected date
        in the loaded list; update it if there is one, otherwise create one
        with an empty batch. When the call succeeds the backend applies it
        and the list is reloaded; when it fails nothing changes. A created
        record gets the id `newId` from the backend. */
    method MarkAttendance(playerId: string, status: AttendanceStatus, callOk: bool, newId: string) returns (call: Api.Call)
      modifies this
      ensures selectedDate == old(selectedDate)
      ensures old(RecordOf(attendance, playerId, selectedDate)).Some? ==> call == Api.UpdateAttendance(map[
                "id" := Json.JStr(old(RecordOf(attendance, playerId, selectedDate)).value.id),
                "status" := Json.JStr(StatusText(status)), "date" := Json.JStr(selectedDate),
                "userId" := Json.JStr(playerId), "markedBy" := Json.JStr(MarkedBy())])
      ensures old(RecordOf(attendance, playerId, selectedDate)).None? ==> call == Api.CreateAttendance(map[
                "date" := Json.JStr(selectedDate), "userId" := Json.JStr(playerId),
                "status" := Json.JStr(StatusText(status)), "markedBy" := Json.JStr(MarkedBy()),
                "batchId" := Json.JStr("")])
      ensures callOk && old(RecordOf(attendance, playerId, selectedDate)).Some? ==>
                stored == Updated(old(stored), old(RecordOf(attendance, playerId, selectedDate)).value.id, status, selectedDate, playerId, MarkedBy())
      ensures callOk && old(RecordOf(attendance, playerId, selectedDate)).None? ==>
                stored == old(stored) + [Attendance(newId, selectedDate, playerId, "", status, MarkedBy())]
      ensures callOk ==> attendance == stored
      ensures !callOk ==> stored == old(stored) && attendance == old(attendance)
      ensures old(attendance == stored && OnePerDay(stored) && DistinctIds(stored)) &&
              (old(RecordOf(attendance, playerId, selectedDate)).Some? || forall i :: 0 <= i < |old(stored)| ==> old(stored)[i].id != newId) ==>
                OnePerDay(stored) && DistinctIds(stored) && |stored| <= |old(stored)| + 1 &&
                (callOk ==> StatusOf(attendance, playerId, selectedDate) == Some(status))
    {
      var existing := RecordOf(attendance, playerId, selectedDate);
      var markedBy := OrEmpty(userId);
      if attendance == stored && OnePerDay(stored) && DistinctIds(stored) &&
         (existing.Some? || forall i :: 0 <= i < |stored| ==> stored[i].id != newId) {
        MarkKeepsInvariants(stored, existing, playerId, selectedDate, status, markedBy, newId);
      }
      match existing {
        case Some(e) =>
          call := Api.UpdateAttendance(map[
            "id" := Json.JStr(e.id), "status" := Json.JStr(StatusText(status)), "date" := Json.JStr(selectedDate),
            "userId" := Json.JStr(playerId), "markedBy" := Json.JStr(markedBy)]);
          if callOk {
            stored := Updated(stored, e.id, status, selectedDate, playerId, markedBy);
          }
        case None =>
          call := Api.CreateAttendance(map[
            "date" := Json.JStr(selectedDate), "userId" := Json.JStr(playerId),
            "status" := Json.JStr(StatusText(status)), "markedBy" := Json.JStr(markedBy),
            "batchId" := Json.JStr("")]);
          if callOk {
            stored := stored + [Attendance(newId, selectedDate, playerId, "", status, markedBy)];
          }
      }
      if callOk {
        attendance := stored;
      }
    }
  }

  /** A mark keeps both invariants whichever way it goes, and the lookup
      then finds the marked status. */
  lemma MarkKeepsInvariants(records: seq<Attendance>, existing: Option<Attendance>, playerId: string, date: string,
                            status: AttendanceStatus, markedBy: string, newId: string)
    requires OnePerDay(records) && DistinctIds(records)
    requires existing == RecordOf(records, playerId, date)
    requires existing.Some? || forall i :: 0 <= i < |records| ==> records[i].id != newId
    ensures existing.Some? ==>
              var r := Updated(records, existing.value.id, status, date, playerId, markedBy);
              OnePerDay(r) && DistinctIds(r) && StatusOf(r, playerId, date) == Some(status)
    ensures existing.None? ==>
              var r := records + [Attendance(newId, date, playerId, "", status, markedBy)];
              OnePerDay(r) && DistinctIds(r) && StatusOf(r, playerId, date) == Some(status)
  {
    match existing {
      case Some(e) => UpdateKeepsInvariants(records, e, status, markedBy);
      case None => CreateKeepsInvariants(records, Attendance(newId, date, playerId, "", status, markedBy));
    }
  }

  /** The first record that passes `p`, when it is the only one. */
  lemma FindOnly(s: seq<Attendance>, k: nat, p: Attendance -> bool)
    requires k < |s| && p(s[k])
    requires forall j :: 0 <= j < |s| && j != k ==> !p(s[j])
    ensures Seqs.Find(s, p) == Some(s[k])
  {
    var i := Seqs.FindIndex(s, p);
    assert i.Some? && i.value == k;
  }

  /** Updating a stored record with its own player and date keeps every
      id, player and date as it was, so both invariants hold afterwards, and
      the lookup for that player and date finds the new status. */
  lemma UpdateKeepsInvariants(records: seq<Attendance>, e: Attendance, status: AttendanceStatus, markedBy: string)
    requires OnePerDay(records) && DistinctIds(records) && e in records
    ensures var r := Updated(records, e.id, status, e.date, e.userId, markedBy);
            OnePerDay(r) && DistinctIds(r) && StatusOf(r, e.userId, e.date) == Some(status)
  {
    var r := Updated(records, e.id, status, e.date, e.userId, markedBy);
    var k :| 0 <= k < |records| && records[k] == e;
    forall i | 0 <= i < |records|
      ensures r[i].id == records[i].id && r[i].userId == records[i].userId && r[i].date == records[i].date
    {
    }
    assert r[k].status == status;
    forall j | 0 <= j < |r| && j != k
      ensures !(r[j].userId == e.userId && r[j].date == e.date)
    {
    }
    FindOnly(r, k, (a: Attendance) => a.userId == e.userId && a.date == e.date);
  }

  /** Creating a record for a player and date that had none, under an id no
      record has, keeps both invariants and makes that record the one the
      status lookup finds. */
  lemma CreateKeepsInvariants(records: seq<Attendance>, a: Attendance)
    requires OnePerDay(records) && DistinctIds(records)
    requires RecordOf(records, a.userId, a.date).None?
    requires forall i :: 0 <= i < |records| ==> records[i].id != a.id
    ensures var r := records + [a];
            OnePerDay(r) && DistinctIds(r) && StatusOf(r, a.userId, a.date) == Some(a.status)
  {
    var r := records + [a];
    FindOnly(r, |records|, (x: Attendance) => x.userId == a.userId && x.date == a.date);
  }

  /** Marking the same player twice on the selected date, both calls
      succeeding, while the loaded list mirrors the stored records: the first
      mark may create a record, the second updates it, so there is never a
      second record for that player and date, and the status shown is the
      one marked last. */
  method MarkTwice(page: AttendancePage, playerId: string, first: AttendanceStatus, second: AttendanceStatus, id1: string, id2: string)
      returns (call1: Api.Call, call2: Api.Call)
    requires page.attendance == page.stored
    requires OnePerDay(page.stored) && DistinctIds(page.stored)
    requires forall i :: 0 <= i < |page.stored| ==> page.stored[i].id != id1
    modifies page
    ensures call2.UpdateAttendance?
    ensures OnePerDay(page.stored) && DistinctIds(page.stored)
    ensures page.attendance == page.stored
    ensures |page.stored| <= old(|page.stored|) + 1
    ensures StatusOf(page.attendance, playerId, page.selectedDate) == Some(second)
  {
    call1 := page.MarkAttendance(playerId, first, true, id1);
    call2 := page.MarkAttendance(playerId, second, true, id2);
  }

  /** The mirroring premise is needed: when the loaded list is stale and
      misses the player's stored record for the date, a successful mark
      creates a second record for that player and date. */
  method StaleListDuplicates(page: AttendancePage, playerId: string, id1: string, id2: string)
    requires page.attendance == []
    requires page.stored == [Attendance(id1, page.selectedDate, playerId, "", Present, "")]
    modifies page
    ensures !OnePerDay(page.stored)
  {
    var call := page.MarkAttendance(playerId, Absent, true, id2);
    assert page.stored[0].userId == page.stored[1].userId && page.stored[0].date == page.stored[1].date;
  }
}
