/** The backend client: how a response is classified (`handleResponse`) and
    the request each `api.*` method sends. The transport itself (the HTTP
    exchange with the backend) is outside the model; a request is described
    by its query string (GET) or its JSON body (POST). */
module Api {
  import opened Wrappers
  import opened Json
  import Text

  /** What `response.json()` settles to: the parsed value, or a rejection
      (the body is not JSON). */
  datatype Body = Parsed(value: Value) | Unparseable

  /** Why a call throws: an `Error` built by `handleResponse`, or the
      `TypeError` JavaScript raises when it reads `.error` of a `null` body. */
  datatype Failure = RequestError(message: string) | NullBody

  /** The body `handleResponse` goes on with: an unparseable body is
      replaced by `{ error: 'Network error' }`. */
  function Data(body: Body): Value {
    match body
    case Parsed(v) => v
    case Unparseable => JObj(map["error" := JStr("Network error")])
  }

  /** The body's `error` property when it is truthy. */
  predicate HasError(data: Value) {
    match Field(data, "error")
    case Some(e) => Truthy(e)
    case None => false
  }

  /** `handleResponse(response)`: the parsed body when the status is OK and
      the body carries no truthy `error`; otherwise a failure whose message
      is the `error` property (converted to text) or 'Request failed'. */
  function HandleResponse(ok: bool, body: Body): (r: Result<Value, Failure>)
    ensures r.Success? <==> ok && body.Parsed? && !body.value.JNull? && !HasError(body.value)
    ensures r.Success? ==> r.value == body.value
    ensures r == Failure(NullBody) <==> body == Parsed(JNull)
    ensures body.Unparseable? ==> r == Failure(RequestError("Network error"))
    ensures body.Parsed? && HasError(body.value) ==>
              r == Failure(RequestError(Stringify(body.value.fields["error"])))
    ensures !ok && body.Parsed? && !body.value.JNull? && !HasError(body.value) ==>
              r == Failure(RequestError("Request failed"))
  {
    var data := Data(body);
    if data.JNull? then Failure(NullBody)
    else if !ok || HasError(data) then
      Failure(RequestError(if HasError(data) then Stringify(data.fields["error"]) else "Request failed"))
    else Success(data)
  }

  /** An `error` of "" is falsy: an OK response carrying it succeeds with the
      whole body, `error` included. */
  lemma EmptyErrorIsNoError(fields: map<string, Value>)
    requires "error" in fields && fields["error"] == JStr("")
    ensures HandleResponse(true, Parsed(JObj(fields))) == Success(JObj(fields))
  {
  }

  /** A truthy text `error` is the failure's message whatever the status. */
  lemma ErrorFieldWins(ok: bool, fields: map<string, Value>, message: string)
    requires "error" in fields && fields["error"] == JStr(message) && message != ""
    ensures HandleResponse(ok, Parsed(JObj(fields))) == Failure(RequestError(message))
  {
  }

  /** `{ action: name, ...payload }`: the payload's keys come after `action`,
      so a payload key overrides it, `action` included. */
  function PostBody(action: string, payload: map<string, Value>): (r: Value)
    ensures r.JObj? && r.fields.Keys == payload.Keys + {"action"}
    ensures forall k :: k in payload ==> r.fields[k] == payload[k]
    ensures "action" !in payload ==> r.fields["action"] == JStr(action)
  {
    JObj(map["action" := JStr(action)] + payload)
  }

  /** The `api.*` methods with their arguments. Record payloads are the
      JSON objects the pages pass in. */
  datatype Call =
    | Login(phone: string, password: string)
    | ChangePassword(id: string, newPassword: string)
    | ListUsers
    | GetUser(id: string)
    | CreateUser(data: map<string, Value>)
    | UpsertUser(data: map<string, Value>)
    | DeleteUser(id: string)
    | GetCoaches
    | GetCoachStudents(coachId: string)
    | ListBatches
    | CreateBatch(data: map<string, Value>)
    | UpdateBatch(data: map<string, Value>)
    | DeleteBatch(id: string)
    | ListContent
    | CreateContent(data: map<string, Value>)
    | UpdateContent(data: map<string, Value>)
    | DeleteContent(id: string)
    | ListAttendance
    | CreateAttendance(data: map<string, Value>)
    | UpdateAttendance(data: map<string, Value>)
    | MarkAttendance(data: map<string, Value>)
    | ListYoyoTests
    | CreateYoyoTest(data: map<string, Value>)
    | UpdateYoyoTest(data: map<string, Value>)
    | DeleteYoyoTest(id: string)
    | AnalyticsOverview
  {
    predicate IsDelete() {
      DeleteUser? || DeleteBatch? || DeleteContent? || DeleteYoyoTest?
    }

    predicate IsRead() {
      ListUsers? || GetUser? || GetCoaches? || GetCoachStudents? || ListBatches? ||
      ListContent? || ListAttendance? || ListYoyoTests? || AnalyticsOverview?
    }

    predicate HasPayload() {
      CreateUser? || UpsertUser? || CreateBatch? || UpdateBatch? || CreateContent? ||
      UpdateContent? || CreateAttendance? || UpdateAttendance? || MarkAttendance? ||
      CreateYoyoTest? || UpdateYoyoTest?
    }
  }

  /** The backend action each method names. */
  function Action(c: Call): string {
    match c
    case Login(_, _) => "login"
    case ChangePassword(_, _) => "changePassword"
    case ListUsers => "listUsers"
    case GetUser(_) => "getUser"
    case CreateUser(_) => "createUser"
    case UpsertUser(_) => "upsertUser"
    case DeleteUser(_) => "deleteUser"
    case GetCoaches => "getCoaches"
    case GetCoachStudents(_) => "getCoachStudents"
    case ListBatches => "listBatches"
    case CreateBatch(_) => "createBatch"
    case UpdateBatch(_) => "updateBatch"
    case DeleteBatch(_) => "deleteBatch"
    case ListContent => "listContent"
    case CreateContent(_) => "createContent"
    case UpdateContent(_) => "updateContent"
    case DeleteContent(_) => "deleteContent"
    case ListAttendance => "listAttendanceRecords"
    case CreateAttendance(_) => "createAttendanceRecord"
    case UpdateAttendance(_) => "updateAttendanceRecord"
    case MarkAttendance(_) => "markAttendance"
    case ListYoyoTests => "listYoyoTestResults"
    case CreateYoyoTest(_) => "createYoyoTestResult"
    case UpdateYoyoTest(_) => "updateYoyoTestResult"
    case DeleteYoyoTest(_) => "deleteYoyoTestResult"
    case AnalyticsOverview => "getAnalyticsOverview"
  }

  /** A request: a GET with the query string appended to the base URL, or a
      POST with a JSON body. */
  datatype Request = Get(query: string) | Post(body: Value)

  /** One `name=value` pair of a query string; a piece without `=` has an
      empty value. */
  datatype Param = Param(name: string, value: string)

  /** `name=value`, written verbatim (no URL encoding). */
  function Pair(p: Param): string {
    p.name + "=" + p.value
  }

  function Pairs(ps: seq<Param>): (r: seq<string>)
    ensures |r| == |ps|
    ensures forall i :: 0 <= i < |ps| ==> r[i] == Pair(ps[i])
  {
    if |ps| == 0 then [] else [Pair(ps[0])] + Pairs(ps[1..])
  }

  /** The query string "?n1=v1&n2=v2…" a GET request appends to the base
      URL. */
  function Query(ps: seq<Param>): string {
    "?" + Text.Join(Pairs(ps), '&')
  }

  /** The parameters of a GET request: its action, then the id it reads. */
  function QueryParams(c: Call): (r: seq<Param>)
    ensures |r| >= 1 && r[0] == Param("action", Action(c))
    ensures c.GetUser? ==> r == [Param("action", "getUser"), Param("id", c.id)]
    ensures c.GetCoachStudents? ==> r == [Param("action", "getCoachStudents"), Param("coachId", c.coachId)]
    ensures !c.GetUser? && !c.GetCoachStudents? ==> |r| == 1
  {
    [Param("action", Action(c))] +
      match c
      case GetUser(id) => [Param("id", id)]
      case GetCoachStudents(coachId) => [Param("coachId", coachId)]
      case _ => []
  }

  /** The request a method sends. */
  function RequestFor(c: Call): Request {
    if c.IsRead() then Get(Query(QueryParams(c))) else Post(BodyFor(c))
  }

  /** The JSON body of a POST request. */
  function BodyFor(c: Call): (r: Value)
    requires !c.IsRead()
    ensures r.JObj? && "action" in r.fields
    ensures c.IsDelete() ==> r == JObj(map["action" := JStr(Action(c)), "id" := JStr(c.id)])
    ensures c.HasPayload() ==> r == PostBody(Action(c), c.data)
  {
    if c.Login? then
      JObj(map["action" := JStr("login"), "phone" := JStr(c.phone), "password" := JStr(c.password)])
    else if c.ChangePassword? then
      JObj(map["action" := JStr("changePassword"), "id" := JStr(c.id), "newPassword" := JStr(c.newPassword)])
    else if c.IsDelete() then
      JObj(map["action" := JStr(Action(c)), "id" := JStr(c.id)])
    else
      PostBody(Action(c), c.data)
  }

  /** The position of the first `=` in `piece`, or its length when it has
      none. */
  function FirstEquals(piece: string): (i: nat)
    ensures i <= |piece|
    ensures forall j :: 0 <= j < i ==> piece[j] != '='
    ensures i < |piece| ==> piece[i] == '='
    decreases |piece|
  {
    if |piece| == 0 || piece[0] == '=' then 0 else 1 + FirstEquals(piece[1..])
  }

  /** A piece of a query string cut at its first `=`. */
  function CutAtEquals(piece: string): (r: Param)
    ensures '=' !in r.name
    ensures '=' in piece ==> piece == r.name + "=" + r.value
    ensures '=' !in piece ==> r == Param(piece, "")
  {
    var i := FirstEquals(piece);
    if i == |piece| then
      assert piece[..i] == piece;
      Param(piece, "")
    else
      assert piece == piece[..i] + "=" + piece[i + 1..];
      Param(piece[..i], piece[i + 1..])
  }

  /** The pairs a server reads from a query string "?p1&p2&…" (before any
      percent-decoding). */
  function Params(query: string): seq<Param> {
    CutAll(Text.Split(if |query| == 0 then "" else query[1..], '&'))
  }

  function CutAll(pieces: seq<string>): (r: seq<Param>)
    ensures |r| == |pieces|
  {
    if |pieces| == 0 then [] else [CutAtEquals(pieces[0])] + CutAll(pieces[1..])
  }

  /** Cutting `name=value` at its first `=` gives back the name and the
      value, provided the name has no `=`. */
  lemma NameBeforeFirstEquals(name: string, value: string)
    requires '=' !in name
    ensures CutAtEquals(name + "=" + value) == Param(name, value)
  {
    var piece := name + "=" + value;
    var i := FirstEquals(piece);
    assert piece[|name|] == '=';
    assert forall j :: 0 <= j < |name| ==> piece[j] == name[j];
    assert i == |name|;
    assert piece[..i] == name && piece[i + 1..] == value;
  }

  /** The characters a query value may not hold to arrive as written: `&`
      ends the pair, `#` starts the fragment the browser never sends, and a
      server decodes `%xx` and `+`. */
  predicate Verbatim(t: string) {
    '&' !in t && '#' !in t && '%' !in t && '+' !in t
  }

  /** Parameters that need no encoding (no `=` in a name, and no name or
      value with a character `Verbatim` excludes). */
  predicate Plain(ps: seq<Param>) {
    forall i :: 0 <= i < |ps| ==> '=' !in ps[i].name && Verbatim(ps[i].name) && Verbatim(ps[i].value)
  }

  lemma {:induction false} CutAllPairs(ps: seq<Param>)
    requires Plain(ps)
    ensures CutAll(Pairs(ps)) == ps
    decreases |ps|
  {
    if |ps| > 0 {
      NameBeforeFirstEquals(ps[0].name, ps[0].value);
      assert Pairs(ps)[1..] == Pairs(ps[1..]);
      assert Plain(ps[1..]);
      CutAllPairs(ps[1..]);
    }
  }

  /** Splitting a query string at `&` and each piece at its first `=` reads
      back exactly the parameters written, as long as they need no encoding. */
  lemma {:induction false} QueryRoundTrip(ps: seq<Param>)
    requires |ps| >= 1 && Plain(ps)
    ensures Params(Query(ps)) == ps
  {
    var pieces := Pairs(ps);
    assert Query(ps)[1..] == Text.Join(pieces, '&');
    forall i | 0 <= i < |pieces|
      ensures '&' !in pieces[i]
    {
      assert pieces[i] == ps[i].name + "=" + ps[i].value;
    }
    Text.SplitJoin(pieces, '&');
    CutAllPairs(ps);
  }

  /** An id that needs no encoding reaches the server as the `id`
      parameter, next to the `getUser` action. */
  lemma {:induction false} GetUserQueryRoundTrip(id: string)
    requires Verbatim(id)
    ensures Params(RequestFor(GetUser(id)).query) == [Param("action", "getUser"), Param("id", id)]
  {
    var ps := [Param("action", "getUser"), Param("id", id)];
    assert QueryParams(GetUser(id)) == ps;
    GetUserParamsPlain(id);
    QueryRoundTrip(ps);
  }

  /** The `getUser` parameters need no encoding when the id needs none. */
  lemma GetUserParamsPlain(id: string)
    requires Verbatim(id)
    ensures Plain([Param("action", "getUser"), Param("id", id)])
  {
    assert Verbatim("action") && Verbatim("getUser") && '=' !in "action" && '=' !in "id" && Verbatim("id");
  }

  /** Because ids are not encoded, an id "a&b" (with no `&` in `a` or `b`)
      cuts the `id` parameter short at `a` and adds a parameter `b` to a
      `getUser` request: an id ending in "&action=listUsers" sends two
      actions. */
  lemma {:induction false} UnencodedIdAddsParameter(a: string, b: string)
    requires '&' !in a && '&' !in b
    ensures Params(RequestFor(GetUser(a + "&" + b)).query) ==
              [Param("action", "getUser"), Param("id", a), CutAtEquals(b)]
  {
    var ps := [Param("action", "getUser"), Param("id", a + "&" + b)];
    assert QueryParams(GetUser(a + "&" + b)) == ps;
    SecondValueSplits("action", "getUser", "id", a, b);
  }

  /** Two pairs whose second value holds one `&` read back as three. */
  lemma {:induction false} SecondValueSplits(n1: string, v1: string, n2: string, a: string, b: string)
    requires '=' !in n1 && '=' !in n2
    requires '&' !in n1 && '&' !in v1 && '&' !in n2 && '&' !in a && '&' !in b
    ensures Params(Query([Param(n1, v1), Param(n2, a + "&" + b)])) == [Param(n1, v1), Param(n2, a), CutAtEquals(b)]
  {
    var ps := [Param(n1, v1), Param(n2, a + "&" + b)];
    var p1, p2 := n1 + "=" + v1, n2 + "=" + a;
    var pieces := Pairs(ps);
    assert pieces[1] == n2 + "=" + (a + "&" + b) == p2 + "&" + b;
    assert pieces == [p1, p2 + "&" + b];
    assert Text.Join(pieces, '&') == p1 + "&" + (p2 + "&" + b) by {
      assert Text.Join(pieces, '&') == pieces[0] + ['&'] + Text.Join(pieces[1..], '&');
    }
    var q := Query(ps);
    assert q[1..] == p1 + "&" + (p2 + "&" + b);
    Text.SplitAfterPiece(p1, '&', p2 + "&" + b);
    Text.SplitAfterPiece(p2, '&', b);
    Text.SplitWhole(b, '&');
    assert Text.Split(q[1..], '&') == [p1, p2, b];
    assert Params(q) == CutAll([p1, p2, b]);
    NameBeforeFirstEquals(n1, v1);
    NameBeforeFirstEquals(n2, a);
    CutThree(p1, p2, b);
  }

  lemma CutThree(x: string, y: string, z: string)
    ensures CutAll([x, y, z]) == [CutAtEquals(x), CutAtEquals(y), CutAtEquals(z)]
  {
    assert CutAll([z]) == [CutAtEquals(z)] + CutAll([z][1..]);
    assert CutAll([y, z]) == [CutAtEquals(y)] + CutAll([y, z][1..]);
    assert [y, z][1..] == [z];
    assert CutAll([x, y, z]) == [CutAtEquals(x)] + CutAll([x, y, z][1..]);
    assert [x, y, z][1..] == [y, z];
  }
}
