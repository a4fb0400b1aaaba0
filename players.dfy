/** The players page: the students among the users, the search and the
    batch and coach filters over them, the table cells, and the payload the
    player form saves. */
module Players {
  import opened Wrappers
  import opened Records
  import Json
  import Api
  import Text
  import Seqs

  /** The players are the users whose role is 'student', in their order. */
  function Students(users: seq<User>): (r: seq<User>)
    ensures forall u :: u in r <==> u in users && u.role == Some("student")
    ensures Seqs.IsSubsequence(r, users)
    ensures |r| == |set i: nat | i < |users| && users[i].role == Some("student")|
  {
    Seqs.FilterIsSubsequence(users, (u: User) => u.role == Some("student"));
    Seqs.FilterCount(users, (u: User) => u.role == Some("student"));
    assert Seqs.Passing(users, (u: User) => u.role == Some("student")) == set i: nat | i < |users| && users[i].role == Some("student");
    Seqs.Filter(users, (u: User) => u.role == Some("student"))
  }

  /** The search box and the two dropdowns; "" means not set. */
  datatype Criteria = Criteria(searchTerm: string, batch: string, coach: string)

  /** The search test: the lower-cased name contains the lower-cased term,
      or the phone (or "") contains the term as typed. */
  predicate MatchesSearch(p: User, term: string) {
    || FieldHas(p.name, term)
    || Text.Contains(OrEmpty(p.phone), term)
  }

  /** Whether a player passes every criterion that is set. */
  predicate Keeps(c: Criteria, p: User) {
    && (c.searchTerm == "" || MatchesSearch(p, c.searchTerm))
    && (c.batch == "" || p.batchId == Some(c.batch))
    && (c.coach == "" || p.assignedCoachId == Some(c.coach))
  }

  /** `filterPlayers`: the search (skipped for an empty term), then the
      batch filter, then the coach filter (each skipped when not set). */
  function FilterPlayers(players: seq<User>, c: Criteria): (r: seq<User>)
    ensures forall p :: p in r <==> p in players && Keeps(c, p)
  {
    var searched := if c.searchTerm != "" then Seqs.Filter(players, p => MatchesSearch(p, c.searchTerm)) else players;
    var batched := if c.batch != "" then Seqs.Filter(searched, (p: User) => p.batchId == Some(c.batch)) else searched;
    if c.coach != "" then Seqs.Filter(batched, (p: User) => p.assignedCoachId == Some(c.coach)) else batched
  }

  /** The three successive filters are one filter by `Keeps`. */
  lemma {:induction false} FilterPlayersIsOneFilter(players: seq<User>, c: Criteria)
    ensures FilterPlayers(players, c) == Seqs.Filter(players, p => Keeps(c, p))
  {
    var s := (p: User) => c.searchTerm == "" || MatchesSearch(p, c.searchTerm);
    var b := (p: User) => c.batch == "" || p.batchId == Some(c.batch);
    var k := (p: User) => c.coach == "" || p.assignedCoachId == Some(c.coach);
    var sb := (p: User) => s(p) && b(p);
    var searched := if c.searchTerm != "" then Seqs.Filter(players, p => MatchesSearch(p, c.searchTerm)) else players;
    if c.searchTerm != "" {
      Seqs.FilterExt(players, p => MatchesSearch(p, c.searchTerm), s);
    } else {
      Seqs.FilterAll(players, s);
    }
    var batched := if c.batch != "" then Seqs.Filter(searched, (p: User) => p.batchId == Some(c.batch)) else searched;
    if c.batch != "" {
      Seqs.FilterExt(searched, (p: User) => p.batchId == Some(c.batch), b);
    } else {
      Seqs.FilterAll(searched, b);
    }
    Seqs.FilterFilter(players, s, b, sb);
    if c.coach != "" {
      Seqs.FilterExt(batched, (p: User) => p.assignedCoachId == Some(c.coach), k);
    } else {
      Seqs.FilterAll(batched, k);
    }
    Seqs.FilterFilter(players, sb, k, p => Keeps(c, p));
  }

  /** The result keeps the players' order; with nothing set it is all the
      players; filtering it again with the same criteria changes nothing. */
  lemma FilterPlayersProperties(players: seq<User>, c: Criteria)
    ensures Seqs.IsSubsequence(FilterPlayers(players, c), players)
    ensures c == Criteria("", "", "") ==> FilterPlayers(players, c) == players
    ensures FilterPlayers(FilterPlayers(players, c), c) == FilterPlayers(players, c)
  {
    FilterPlayersIsOneFilter(players, c);
    Seqs.FilterIsSubsequence(players, p => Keeps(c, p));
    FilterPlayersIsOneFilter(FilterPlayers(players, c), c);
    Seqs.FilterIdempotent(players, p => Keeps(c, p));
  }

  /** An empty search term keeps every player, even one with neither name
      nor phone. */
  lemma EmptySearchKeepsEveryone(p: User)
    ensures Keeps(Criteria("", "", ""), p)
  {
  }

  /** The phone test is case-sensitive: a phone "ABC" does not match the
      term "abc" (while a name does, whatever its case). */
  lemma PhoneSearchIsCaseSensitive(p: User)
    requires p.name.None? && p.phone == Some("ABC")
    ensures !MatchesSearch(p, "abc")
  {
    Text.ContainsAt("ABC", "abc");
    forall i | 0 <= i <= |"ABC"| - |"abc"|
      ensures !Text.OccursAt("ABC", "abc", i)
    {
      assert "ABC"[i..i + 3][0] == 'A' != "abc"[0];
    }
  }

  /** The batch cell: the name of the first batch whose id is the player's
      `batchId`, or "-" when there is none or its name is empty. */
  function BatchCell(p: User, batches: seq<Batch>): (r: string)
    ensures (forall i :: 0 <= i < |batches| ==> Some(batches[i].id) != p.batchId) ==> r == "-"
    ensures r != "-" ==> exists i :: 0 <= i < |batches| && Some(batches[i].id) == p.batchId && batches[i].name == Some(r)
    ensures forall k ::
              0 <= k < |batches| && Some(batches[k].id) == p.batchId &&
              (forall j :: 0 <= j < k ==> Some(batches[j].id) != p.batchId)
              ==> r == if OrEmpty(batches[k].name) != "" then batches[k].name.value else "-"
  {
    match Seqs.Find(batches, (b: Batch) => Some(b.id) == p.batchId)
    case None => "-"
    case Some(b) => if OrEmpty(b.name) != "" then b.name.value else "-"
  }

  /** The status cell: the status, or 'active' when it is missing or empty. */
  function StatusCell(p: User): (r: string)
    ensures r != ""
    ensures p.status.Some? && p.status.value != "" ==> r == p.status.value
    ensures OrEmpty(p.status) == "" ==> r == "active"
  {
    if OrEmpty(p.status) != "" then p.status.value else "active"
  }

  /** The player form's fields, all text. */
  datatype PlayerForm = PlayerForm(
    name: string, phone: string, email: string, password: string, age: string,
    batchId: string, fatherName: string, motherName: string, altPhone: string,
    coachingType: string, monthlyFee: string, assignedCoachId: string,
    battingStyle: string, bowlingStyle: string, skillLevel: string, status: string)

  /** The form as it opens: a player's values (missing ones as "", the status
      as 'active'), the password always empty; for a new player, all empty
      and the status 'active'. */
  function InitialForm(player: Option<User>): (f: PlayerForm)
    ensures f.password == "" && f.status != ""
    ensures player.None? ==> f == PlayerForm("", "", "", "", "", "", "", "", "", "", "", "", "", "", "", "active")
    ensures player.Some? ==> f.name == OrEmpty(player.value.name) && f.status == StatusCell(player.value)
    ensures player.Some? ==>
              f.phone == OrEmpty(player.value.phone) && f.email == OrEmpty(player.value.email) &&
              f.batchId == OrEmpty(player.value.batchId) && f.assignedCoachId == OrEmpty(player.value.assignedCoachId)
  {
    match player
    case None => PlayerForm("", "", "", "", "", "", "", "", "", "", "", "", "", "", "", "active")
    case Some(p) =>
      PlayerForm(OrEmpty(p.name), OrEmpty(p.phone), OrEmpty(p.email), "", OrEmpty(p.age),
        OrEmpty(p.batchId), OrEmpty(p.fatherName), OrEmpty(p.motherName), OrEmpty(p.altPhone),
        OrEmpty(p.coachingType), OrEmpty(p.monthlyFee), OrEmpty(p.assignedCoachId),
        OrEmpty(p.battingStyle), OrEmpty(p.bowlingStyle), OrEmpty(p.skillLevel), StatusCell(p))
  }

  /** The form's fields as sent; the id and role are not among them. */
  function FormFields(f: PlayerForm): (r: map<string, Json.Value>)
    ensures "password" in r && r["password"] == Json.JStr(f.password)
    ensures "name" in r && r["name"] == Json.JStr(f.name)
    ensures "id" !in r && "role" !in r
  {
    map[
      "name" := Json.JStr(f.name), "phone" := Json.JStr(f.phone), "email" := Json.JStr(f.email),
      "password" := Json.JStr(f.password), "age" := Json.JStr(f.age), "batchId" := Json.JStr(f.batchId),
      "fatherName" := Json.JStr(f.fatherName), "motherName" := Json.JStr(f.motherName),
      "altPhone" := Json.JStr(f.altPhone), "coachingType" := Json.JStr(f.coachingType),
      "monthlyFee" := Json.JStr(f.monthlyFee), "assignedCoachId" := Json.JStr(f.assignedCoachId),
      "battingStyle" := Json.JStr(f.battingStyle), "bowlingStyle" := Json.JStr(f.bowlingStyle),
      "skillLevel" := Json.JStr(f.skillLevel), "status" := Json.JStr(f.status)]
  }

  /** `PlayerFormModal.handleSubmit`: editing a player upserts the form with
      the player's id; adding one creates it without an id. Either way the
      role is 'student'. */
  function SaveCall(player: Option<User>, f: PlayerForm): (r: Api.Call)
    ensures player.Some? <==> r.UpsertUser?
    ensures player.None? <==> r.CreateUser?
    ensures "role" in r.data && r.data["role"] == Json.JStr("student")
    ensures "status" in r.data && r.data["status"] == Json.JStr(f.status)
    ensures "password" in r.data && r.data["password"] == Json.JStr(f.password)
    ensures "name" in r.data && r.data["name"] == Json.JStr(f.name)
    ensures player.Some? ==> "id" in r.data && r.data["id"] == Json.JStr(player.value.id)
    ensures player.None? ==> "id" !in r.data
  {
    var tail := map["role" := Json.JStr("student"), "status" := Json.JStr(f.status)];
    match player
    case Some(p) => Api.UpsertUser(map["id" := Json.JStr(p.id)] + FormFields(f) + tail)
    case None => Api.CreateUser(FormFields(f) + tail)
  }

  /** Saving an unedited form for an existing player sends an empty password
      and the status the table shows. */
  lemma UneditedSaveSendsEmptyPassword(p: User)
    ensures var call := SaveCall(Some(p), InitialForm(Some(p)));
            "password" in call.data && call.data["password"] == Json.JStr("") &&
            "status" in call.data && call.data["status"] == Json.JStr(StatusCell(p))
  {
  }
}
