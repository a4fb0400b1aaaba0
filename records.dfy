/** The record shapes the pages work on. Fields the pages read through `?.`
    or `||` are optional (`None` is `undefined`); fields that only reach a
    form or a CSV cell unchanged keep the text the backend sent. */
module Records {
  import opened Wrappers
  import Seqs
  import Text

  /** A date as the backend sends it: the text (written to CSV cells) and the
      instant `new Date(text)` denotes, as an ordered integer. */
  datatype Stamp = Stamp(text: string, time: int)

  datatype User = User(
    id: string,
    name: Option<string>,
    phone: Option<string>,
    email: Option<string>,
    role: Option<string>,
    age: Option<string>,
    batchId: Option<string>,
    fatherName: Option<string>,
    motherName: Option<string>,
    altPhone: Option<string>,
    coachingType: Option<string>,
    monthlyFee: Option<string>,   // as `monthlyFee.toString()` renders it
    specialization: Option<string>,
    status: Option<string>,
    skillLevel: Option<string>,
    battingStyle: Option<string>,
    bowlingStyle: Option<string>,
    experience: Option<string>,
    studentsCount: Option<int>,
    assignedCoachId: Option<string>)

  datatype Batch = Batch(
    id: string,
    name: Option<string>,
    description: Option<string>,
    coach: Option<string>,
    coachId: Option<string>,
    schedule: Option<string>,
    status: Option<string>)

  datatype AttendanceStatus = Present | Absent | Late

  datatype Attendance = Attendance(
    id: string,
    date: string,
    userId: string,
    batchId: string,
    status: AttendanceStatus,
    markedBy: string)

  /** A transaction SMS. `amount` is the text `String(amount)` gives. */
  datatype SmsMessage = SmsMessage(
    smsDate: Stamp,
    senderAddress: Option<string>,
    transactionType: Option<string>,
    amount: Option<string>,
    upiId: Option<string>,
    transactionId: Option<string>,
    partyName: Option<string>,
    fullMessage: Option<string>)

  /** An expense entry ("work"). `amount` is the text `String(amount)` gives. */
  datatype Work = Work(
    id: string,
    date: Stamp,
    workCategory: Option<string>,
    workDetails: Option<string>,
    paidBy: Option<string>,
    amount: Option<string>,
    modeOfTransaction: Option<string>)

  datatype Investment = Investment(
    id: string,
    date: Stamp,
    name: Option<string>,
    amount: Option<string>)

  /** `x || ''` for an optional text field. */
  function OrEmpty(x: Option<string>): string {
    x.GetOr("")
  }

  /** `field?.toLowerCase().includes(term.toLowerCase())`: the field is
      present and its lower-cased text contains the lower-cased term. */
  predicate FieldHas(field: Option<string>, term: string) {
    field.Some? && Text.Contains(Text.Lower(field.value), Text.Lower(term))
  }

  /** The date test of the expenses and investments filters: the start
      bound is checked first and the end bound only while the date still
      passes, which makes both bounds inclusive and both required. A bound is
      `None` when its input is empty. */
  function InRange(start: Option<int>, end: Option<int>, t: int): (r: bool)
    ensures r <==> (start.None? || start.value <= t) && (end.None? || t <= end.value)
  {
    var afterStart := if start.Some? then t >= start.value else true;
    if end.Some? && afterStart then t <= end.value else afterStart
  }

  /** `xs.map(field)`: one optional text column of a list of records. */
  function Column<T>(xs: seq<T>, field: T -> Option<string>): (r: seq<Option<string>>)
    ensures |r| == |xs| && forall i :: 0 <= i < |xs| ==> r[i] == field(xs[i])
    ensures forall v :: Some(v) in r <==> exists i :: 0 <= i < |xs| && field(xs[i]) == Some(v)
  {
    var r := seq(|xs|, i requires 0 <= i < |xs| => field(xs[i]));
    assert forall v :: Some(v) in r ==> exists i :: 0 <= i < |xs| && r[i] == Some(v);
    r
  }

  /** The truthy values of an optional text column, in order:
      `xs.filter(Boolean)`. */
  function TruthyTexts(xs: seq<Option<string>>): (r: seq<string>)
    ensures |r| <= |xs|
    ensures forall i :: 0 <= i < |r| ==> r[i] != ""
    ensures forall v :: v in r <==> v != "" && Some(v) in xs
  {
    if |xs| == 0 then []
    else
      var rest := TruthyTexts(xs[1..]);
      assert forall x :: x in xs <==> x == xs[0] || x in xs[1..];
      if xs[0].Some? && xs[0].value != "" then [xs[0].value] + rest else rest
  }

  /** `[...new Set(xs.filter(Boolean))]`: the dropdown options built from a
      column, each truthy value once, in order of first appearance. */
  function Options(xs: seq<Option<string>>): (r: seq<string>)
    ensures |r| <= |xs|
    ensures forall v :: v in r <==> v != "" && Some(v) in xs
    ensures forall i, j :: 0 <= i < j < |r| ==> r[i] != r[j]
    ensures forall i, j :: 0 <= i < j < |r| ==>
              exists k :: 0 <= k < |xs| && xs[k] == Some(r[i]) && forall l :: 0 <= l <= k ==> xs[l] != Some(r[j])
  {
    var t := TruthyTexts(xs);
    var r := Seqs.Distinct(t);
    Seqs.DistinctInFirstOccurrenceOrder(t);
    forall i, j | 0 <= i < j < |r|
      ensures exists k :: 0 <= k < |xs| && xs[k] == Some(r[i]) && forall l :: 0 <= l <= k ==> xs[l] != Some(r[j])
    {
      TruthyTextsInOrder(xs, r[i], r[j]);
      var k := Seqs.IndexOf(xs, Some(r[i]));
      assert xs[k] == Some(r[i]);
    }
    r
  }

  /** `TruthyTexts` keeps the order in which values first appear. */
  lemma {:induction false} TruthyTextsInOrder(xs: seq<Option<string>>, v: string, w: string)
    requires v in TruthyTexts(xs) && w in TruthyTexts(xs)
    requires Seqs.IndexOf(TruthyTexts(xs), v) < Seqs.IndexOf(TruthyTexts(xs), w)
    ensures Some(v) in xs && Some(w) in xs && Seqs.IndexOf(xs, Some(v)) < Seqs.IndexOf(xs, Some(w))
    decreases |xs|
  {
    var t, rest := TruthyTexts(xs), TruthyTexts(xs[1..]);
    if xs[0].Some? && xs[0].value != "" {
      assert t == [xs[0].value] + rest;
      if v != xs[0].value {
        assert w != xs[0].value;
        assert v in rest && w in rest;
        assert Seqs.IndexOf(t, v) == Seqs.IndexOf(rest, v) + 1;
        assert Seqs.IndexOf(t, w) == Seqs.IndexOf(rest, w) + 1;
        TruthyTextsInOrder(xs[1..], v, w);
      }
    } else {
      assert t == rest;
      TruthyTextsInOrder(xs[1..], v, w);
    }
  }
}
