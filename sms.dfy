/** The SMS messages page: the sender and type dropdown options, the
    filters, the newest-first sort of a copy of the loaded list, clearing
    the filters, and the CSV export. */
module Sms {
  import opened Wrappers
  import opened Records
  import Text
  import Seqs
  import Csv

  /** The sender options: each truthy sender once, in order of first
      appearance. */
  function Senders(messages: seq<SmsMessage>): (r: seq<string>)
    ensures forall v :: v in r <==> v != "" && exists i :: 0 <= i < |messages| && messages[i].senderAddress == Some(v)
    ensures forall i, j :: 0 <= i < j < |r| ==> r[i] != r[j]
    ensures forall i, j :: 0 <= i < j < |r| ==>
              exists k :: 0 <= k < |messages| && messages[k].senderAddress == Some(r[i]) && forall l :: 0 <= l <= k ==> messages[l].senderAddress != Some(r[j])
  {
    Options(Column(messages, (m: SmsMessage) => m.senderAddress))
  }

  /** The transaction type options, built the same way. */
  function TransactionTypes(messages: seq<SmsMessage>): (r: seq<string>)
    ensures forall v :: v in r <==> v != "" && exists i :: 0 <= i < |messages| && messages[i].transactionType == Some(v)
    ensures forall i, j :: 0 <= i < j < |r| ==> r[i] != r[j]
    ensures forall i, j :: 0 <= i < j < |r| ==>
              exists k :: 0 <= k < |messages| && messages[k].transactionType == Some(r[i]) && forall l :: 0 <= l <= k ==> messages[l].transactionType != Some(r[j])
  {
    Options(Column(messages, (m: SmsMessage) => m.transactionType))
  }

  /** The filter controls. The type and sender are 'all' or an option; a date
      bound is `None` when its input is empty. */
  datatype Filters = Filters(searchTerm: string, filterType: string, filterSender: string, start: Option<int>, end: Option<int>)

  /** `clearFilters`: an empty term, type and sender 'all', no dates. */
  const Cleared: Filters := Filters("", "all", "all", None, None)

  /** The search test: the message, party name, transaction id or UPI id
      contains the term, ignoring case. */
  predicate MatchesSearch(m: SmsMessage, term: string) {
    FieldHas(m.fullMessage, term) || FieldHas(m.partyName, term) ||
    FieldHas(m.transactionId, term) || FieldHas(m.upiId, term)
  }

  predicate SearchOk(f: Filters, m: SmsMessage) { f.searchTerm == "" || MatchesSearch(m, f.searchTerm) }
  predicate TypeOk(f: Filters, m: SmsMessage) { f.filterType == "all" || m.transactionType == Some(f.filterType) }
  predicate SenderOk(f: Filters, m: SmsMessage) { f.filterSender == "all" || m.senderAddress == Some(f.filterSender) }
  predicate StartOk(f: Filters, m: SmsMessage) { f.start.None? || m.smsDate.time >= f.start.value }
  predicate EndOk(f: Filters, m: SmsMessage) { f.end.None? || m.smsDate.time <= f.end.value }

  /** Whether a message passes every filter that is set; both date bounds
      are inclusive. */
  predicate Keeps(f: Filters, m: SmsMessage) {
    SearchOk(f, m) && TypeOk(f, m) && SenderOk(f, m) && StartOk(f, m) && EndOk(f, m)
  }

  /** The five filters of `applyFilters`, in turn, each skipped when not
      set. */
  function FilterMessages(messages: seq<SmsMessage>, f: Filters): (r: seq<SmsMessage>)
    ensures forall m :: m in r <==> m in messages && Keeps(f, m)
  {
    var s1 := Seqs.FilterIf(messages, f.searchTerm != "", m => MatchesSearch(m, f.searchTerm));
    var s2 := Seqs.FilterIf(s1, f.filterType != "all", (m: SmsMessage) => m.transactionType == Some(f.filterType));
    var s3 := Seqs.FilterIf(s2, f.filterSender != "all", (m: SmsMessage) => m.senderAddress == Some(f.filterSender));
    var s4 := Seqs.FilterIf(s3, f.start.Some?, (m: SmsMessage) => f.start.Some? && m.smsDate.time >= f.start.value);
    Seqs.FilterIf(s4, f.end.Some?, (m: SmsMessage) => f.end.Some? && m.smsDate.time <= f.end.value)
  }

  /** The successive filters are one filter by `Keeps`, so the result keeps
      the loaded order. */
  lemma {:induction false} FilterMessagesIsOneFilter(messages: seq<SmsMessage>, f: Filters)
    ensures FilterMessages(messages, f) == Seqs.Filter(messages, m => Keeps(f, m))
  {
    var p1 := (m: SmsMessage) => SearchOk(f, m);
    var p2 := (m: SmsMessage) => SearchOk(f, m) && TypeOk(f, m);
    var p3 := (m: SmsMessage) => SearchOk(f, m) && TypeOk(f, m) && SenderOk(f, m);
    var p4 := (m: SmsMessage) => SearchOk(f, m) && TypeOk(f, m) && SenderOk(f, m) && StartOk(f, m);
    Seqs.FilterIfIsFilter(messages, f.searchTerm != "", m => MatchesSearch(m, f.searchTerm), p1);
    Seqs.FilterIfAfter(messages, p1, f.filterType != "all", (m: SmsMessage) => m.transactionType == Some(f.filterType), p2);
    Seqs.FilterIfAfter(messages, p2, f.filterSender != "all", (m: SmsMessage) => m.senderAddress == Some(f.filterSender), p3);
    Seqs.FilterIfAfter(messages, p3, f.start.Some?, (m: SmsMessage) => f.start.Some? && m.smsDate.time >= f.start.value, p4);
    Seqs.FilterIfAfter(messages, p4, f.end.Some?, (m: SmsMessage) => f.end.Some? && m.smsDate.time <= f.end.value, m => Keeps(f, m));
  }

  /** The cleared filters keep every message. */
  lemma ClearedKeepsAll(messages: seq<SmsMessage>)
    ensures FilterMessages(messages, Cleared) == messages
  {
  }

  /** Newest first: no message is older than one after it. */
  predicate NewestFirst(s: seq<SmsMessage>) {
    forall i, j :: 0 <= i < j < |s| ==> s[i].smsDate.time >= s[j].smsDate.time
  }

  /** `x` placed into a newest-first list after every message at least as
      new as it: one step of a stable sort. */
  function Insert(sorted: seq<SmsMessage>, x: SmsMessage): (r: seq<SmsMessage>)
    ensures |r| == |sorted| + 1
    decreases |sorted|
  {
    if |sorted| == 0 then [x]
    else if sorted[|sorted| - 1].smsDate.time >= x.smsDate.time then sorted + [x]
    else Insert(sorted[..|sorted| - 1], x) + [sorted[|sorted| - 1]]
  }

  /** The order `filtered.sort((a, b) => time(b) - time(a))` gives: newest
      first, messages of the same time in their original order. */
  function SortNewestFirst(s: seq<SmsMessage>): (r: seq<SmsMessage>)
    ensures |r| == |s|
    decreases |s|
  {
    if |s| == 0 then [] else Insert(SortNewestFirst(s[..|s| - 1]), s[|s| - 1])
  }

  /** The messages of one time `t`, in their order. */
  function AtTime(s: seq<SmsMessage>, t: int): seq<SmsMessage> {
    Seqs.Filter(s, (m: SmsMessage) => m.smsDate.time == t)
  }

  /** Inserting `x` adds it after the messages of its own time and moves
      only messages older than it. */
  lemma {:induction false} InsertAtTime(sorted: seq<SmsMessage>, x: SmsMessage, t: int)
    ensures AtTime(Insert(sorted, x), t) == AtTime(sorted, t) + if x.smsDate.time == t then [x] else []
    decreases |sorted|
  {
    var p := (m: SmsMessage) => m.smsDate.time == t;
    if |sorted| == 0 {
      Seqs.FilterAppend([], x, p);
      assert [] + [x] == [x];
    } else {
      var init, last := sorted[..|sorted| - 1], sorted[|sorted| - 1];
      assert sorted == init + [last];
      Seqs.FilterAppend(init, last, p);
      if last.smsDate.time >= x.smsDate.time {
        Seqs.FilterAppend(sorted, x, p);
      } else {
        InsertAtTime(init, x, t);
        Seqs.FilterAppend(Insert(init, x), last, p);
      }
    }
  }

  /** The sort is stable: the messages of any one time keep their input
      order. */
  lemma {:induction false} SortNewestFirstStable(s: seq<SmsMessage>, t: int)
    ensures AtTime(SortNewestFirst(s), t) == AtTime(s, t)
    decreases |s|
  {
    if |s| > 0 {
      var init, last := s[..|s| - 1], s[|s| - 1];
      assert s == init + [last];
      SortNewestFirstStable(init, t);
      InsertAtTime(SortNewestFirst(init), last, t);
      Seqs.FilterAppend(init, last, (m: SmsMessage) => m.smsDate.time == t);
    }
  }

  lemma {:induction false} InsertPermutes(sorted: seq<SmsMessage>, x: SmsMessage)
    ensures multiset(Insert(sorted, x)) == multiset(sorted) + multiset{x}
    decreases |sorted|
  {
    if |sorted| > 0 && sorted[|sorted| - 1].smsDate.time < x.smsDate.time {
      var init := sorted[..|sorted| - 1];
      InsertPermutes(init, x);
      assert sorted == init + [sorted[|sorted| - 1]];
    }
  }

  lemma {:induction false} InsertKeepsOrder(sorted: seq<SmsMessage>, x: SmsMessage)
    requires NewestFirst(sorted)
    ensures NewestFirst(Insert(sorted, x))
    decreases |sorted|
  {
    if |sorted| > 0 && sorted[|sorted| - 1].smsDate.time < x.smsDate.time {
      var init := sorted[..|sorted| - 1];
      var last := sorted[|sorted| - 1];
      InsertKeepsOrder(init, x);
      InsertPermutes(init, x);
      var ins := Insert(init, x);
      forall i | 0 <= i < |ins|
        ensures ins[i].smsDate.time >= last.smsDate.time
      {
        assert ins[i] in multiset(ins);
        if ins[i] != x {
          assert ins[i] in multiset(init);
          var k :| 0 <= k < |init| && init[k] == ins[i];
          assert sorted[k] == ins[i];
        }
      }
    }
  }

  /** The sorted list is newest first and holds the same messages. */
  lemma {:induction false} SortNewestFirstCorrect(s: seq<SmsMessage>)
    ensures NewestFirst(SortNewestFirst(s))
    ensures multiset(SortNewestFirst(s)) == multiset(s)
    decreases |s|
  {
    if |s| > 0 {
      var init := s[..|s| - 1];
      SortNewestFirstCorrect(init);
      InsertKeepsOrder(SortNewestFirst(init), s[|s| - 1]);
      InsertPermutes(SortNewestFirst(init), s[|s| - 1]);
      assert s == init + [s[|s| - 1]];
    }
  }

  /** Inserting `x` before a run of strictly older messages puts it after
      them. */
  lemma {:induction false} InsertBeforeOlder(sorted: seq<SmsMessage>, j: nat, x: SmsMessage)
    requires j <= |sorted|
    requires forall k :: j <= k < |sorted| ==> sorted[k].smsDate.time < x.smsDate.time
    ensures Insert(sorted, x) == Insert(sorted[..j], x) + sorted[j..]
    decreases |sorted| - j
  {
    if j < |sorted| {
      var init := sorted[..|sorted| - 1];
      InsertBeforeOlder(init, j, x);
      assert init[..j] == sorted[..j];
      assert sorted[j..] == init[j..] + [sorted[|sorted| - 1]];
    } else {
      assert sorted[..j] == sorted;
    }
  }

  /** Where the insertion stops: after the messages at least as new as `x`,
      before the strictly older ones. */
  lemma InsertAt(sorted: seq<SmsMessage>, j: nat, x: SmsMessage)
    requires j <= |sorted|
    requires j == 0 || sorted[j - 1].smsDate.time >= x.smsDate.time
    requires forall k :: j <= k < |sorted| ==> sorted[k].smsDate.time < x.smsDate.time
    ensures Insert(sorted, x) == sorted[..j] + [x] + sorted[j..]
  {
    InsertBeforeOlder(sorted, j, x);
  }

  /** Sorting one more message inserts it into the sorted prefix. */
  lemma SortStep(s: seq<SmsMessage>, i: nat)
    requires i < |s|
    ensures SortNewestFirst(s[..i + 1]) == Insert(SortNewestFirst(s[..i]), s[i])
  {
    assert s[..i + 1][..i] == s[..i];
  }

  /** One pass of the insertion sort: `a[i]` moves left past the messages
      strictly older than it, into the sorted prefix `a[..i]`. */
  method InsertInPlace(a: array<SmsMessage>, i: nat)
    requires i < a.Length
    modifies a
    ensures a[..i + 1] == Insert(old(a[..i]), old(a[i]))
    ensures a[i + 1..] == old(a[i + 1..])
  {
    ghost var sorted := a[..i];
    ghost var rest := a[i + 1..];
    var x := a[i];
    var j := i;
    while j > 0 && a[j - 1].smsDate.time < x.smsDate.time
      invariant 0 <= j <= i
      invariant forall k :: 0 <= k < j ==> a[k] == sorted[k]
      invariant forall k :: j < k <= i ==> a[k] == sorted[k - 1]
      invariant a[i + 1..] == rest
      invariant forall k :: j <= k < i ==> sorted[k].smsDate.time < x.smsDate.time
    {
      a[j] := a[j - 1];
      j := j - 1;
    }
    ghost var shifted := a[..];
    a[j] := x;
    assert a[..] == shifted[j := x];
    InsertAt(sorted, j, x);
    ghost var inserted := sorted[..j] + [x] + sorted[j..];
    forall k | 0 <= k <= i
      ensures shifted[j := x][k] == inserted[k]
    {
      if k < j {
        assert shifted[k] == sorted[k];
      } else if k > j {
        assert shifted[k] == sorted[k - 1];
      }
    }
    assert a[..i + 1] == inserted;
  }

  /** The in-place sort of the copy, as an insertion sort. */
  method SortInPlace(a: array<SmsMessage>)
    modifies a
    ensures a[..] == SortNewestFirst(old(a[..]))
  {
    ghost var orig := a[..];
    var i := 0;
    while i < a.Length
      invariant 0 <= i <= a.Length
      invariant a[..i] == SortNewestFirst(orig[..i])
      invariant a[i..] == orig[i..]
    {
      assert a[i] == orig[i];
      InsertInPlace(a, i);
      SortStep(orig, i);
      assert orig[i + 1..] == orig[i..][1..];
      i := i + 1;
    }
    assert a[..] == a[..a.Length] && orig == orig[..a.Length];
  }

  /** `applyFilters`: the loaded messages are copied, the copy is filtered and
      sorted newest first; the loaded array is left as it was. */
  method ApplyFilters(messages: array<SmsMessage>, f: Filters) returns (r: seq<SmsMessage>)
    ensures r == SortNewestFirst(FilterMessages(messages[..], f))
  {
    var filtered := FilterMessages(messages[..], f);
    var copy := new SmsMessage[|filtered|](k requires 0 <= k < |filtered| => filtered[k]);
    assert copy[..] == filtered;
    SortInPlace(copy);
    r := copy[..];
  }

  /** What `applyFilters` shows: exactly the messages that pass, newest
      first. */
  lemma ShownMessages(messages: seq<SmsMessage>, f: Filters)
    ensures NewestFirst(SortNewestFirst(FilterMessages(messages, f)))
    ensures multiset(SortNewestFirst(FilterMessages(messages, f))) == multiset(FilterMessages(messages, f))
    ensures forall m :: m in SortNewestFirst(FilterMessages(messages, f)) <==> m in messages && Keeps(f, m)
  {
    SortNewestFirstCorrect(FilterMessages(messages, f));
    var r := SortNewestFirst(FilterMessages(messages, f));
    forall m
      ensures m in r <==> m in FilterMessages(messages, f)
    {
      assert m in r <==> m in multiset(r);
    }
  }

  const Headers: seq<string> := ["SMS Date", "Sender Address", "Transaction Type", "Amount", "UPI ID", "Transaction ID", "Party Name", "Full Message"]

  /** A message's cells; a missing field joins as "". The message itself is
      quoted; a message without text makes `replace` throw (`None`). */
  function Cells(m: SmsMessage): (r: Option<seq<string>>)
    ensures r.Some? <==> m.fullMessage.Some?
    ensures r.Some? ==> |r.value| == |Headers| && Csv.ReadQuoted(r.value[7]) == m.fullMessage
    ensures r.Some? ==> r.value[..7] == [m.smsDate.text, OrEmpty(m.senderAddress), OrEmpty(m.transactionType),
              OrEmpty(m.amount), OrEmpty(m.upiId), OrEmpty(m.transactionId), OrEmpty(m.partyName)]
  {
    match m.fullMessage
    case None => None
    case Some(text) =>
      Csv.QuoteRoundTrip(text);
      Some([m.smsDate.text, OrEmpty(m.senderAddress), OrEmpty(m.transactionType), OrEmpty(m.amount),
            OrEmpty(m.upiId), OrEmpty(m.transactionId), OrEmpty(m.partyName), Csv.Quote(text)])
  }

  /** The rows of the shown messages, or `None` when one has no text. */
  function Rows(shown: seq<SmsMessage>): (r: Option<seq<string>>)
    ensures r.Some? <==> forall i :: 0 <= i < |shown| ==> shown[i].fullMessage.Some?
    ensures r.Some? ==> |r.value| == |shown|
    ensures r.Some? ==> forall i :: 0 <= i < |shown| ==> r.value[i] == Csv.Line(Cells(shown[i]).value)
  {
    if |shown| == 0 then Some([])
    else
      match Cells(shown[0])
      case None => None
      case Some(c) =>
        match Rows(shown[1..])
        case None =>
          assert forall i :: 1 <= i < |shown| ==> shown[i] == shown[1..][i - 1];
          None
        case Some(rest) => Some([Csv.Line(c)] + rest)
  }

  /** `exportToCSV`: the header line and one line per shown message. */
  function Export(shown: seq<SmsMessage>): (r: Option<string>)
    ensures r.Some? <==> forall i :: 0 <= i < |shown| ==> shown[i].fullMessage.Some?
  {
    match Rows(shown)
    case None => None
    case Some(rows) => Some(Csv.Document([Csv.Line(Headers)] + rows))
  }

  /** When no field holds a line break, the export has one line for the
      header and one per shown message, in order. */
  lemma ExportLines(shown: seq<SmsMessage>)
    requires forall i :: 0 <= i < |shown| ==> shown[i].fullMessage.Some?
    requires forall i :: 0 <= i < |shown| ==> '\n' !in Csv.Line(Cells(shown[i]).value)
    ensures Export(shown).Some?
    ensures Text.Split(Export(shown).value, '\n') == [Csv.Line(Headers)] + Rows(shown).value
    ensures |Text.Split(Export(shown).value, '\n')| == |shown| + 1
  {
    var rows := Rows(shown).value;
    HeaderLineUnbroken();
    Csv.DocumentLines(Csv.Line(Headers), rows);
  }

  lemma HeaderLineUnbroken()
    ensures '\n' !in Csv.Line(Headers)
  {
    forall i | 0 <= i < |Headers|
      ensures '\n' !in Headers[i]
    {
    }
    Text.JoinExcludes(Headers, ',', '\n');
  }
}
