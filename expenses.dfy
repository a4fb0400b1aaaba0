/** The expenses page: the category, payer and mode options, the filtered
    list, the per-category breakdown, the CSV export and the save and delete
    handlers. */
module Expenses {
  import opened Wrappers
  import opened Records
  import Json
  import Text
  import Seqs
  import Csv
  import Ledger

  /** The category options: each truthy category once, in order of first
      appearance. */
  function Categories(works: seq<Work>): (r: seq<string>)
    ensures forall v :: v in r <==> v != "" && exists i :: 0 <= i < |works| && works[i].workCategory == Some(v)
    ensures forall i, j :: 0 <= i < j < |r| ==> r[i] != r[j]
    ensures forall i, j :: 0 <= i < j < |r| ==>
              exists k :: 0 <= k < |works| && works[k].workCategory == Some(r[i]) && forall l :: 0 <= l <= k ==> works[l].workCategory != Some(r[j])
  {
    Options(Column(works, (w: Work) => w.workCategory))
  }

  /** The payer options, built the same way. */
  function Payers(works: seq<Work>): (r: seq<string>)
    ensures forall v :: v in r <==> v != "" && exists i :: 0 <= i < |works| && works[i].paidBy == Some(v)
    ensures forall i, j :: 0 <= i < j < |r| ==> r[i] != r[j]
    ensures forall i, j :: 0 <= i < j < |r| ==>
              exists k :: 0 <= k < |works| && works[k].paidBy == Some(r[i]) && forall l :: 0 <= l <= k ==> works[l].paidBy != Some(r[j])
  {
    Options(Column(works, (w: Work) => w.paidBy))
  }

  /** The payment mode options, built the same way. */
  function Modes(works: seq<Work>): (r: seq<string>)
    ensures forall v :: v in r <==> v != "" && exists i :: 0 <= i < |works| && works[i].modeOfTransaction == Some(v)
    ensures forall i, j :: 0 <= i < j < |r| ==> r[i] != r[j]
    ensures forall i, j :: 0 <= i < j < |r| ==>
              exists k :: 0 <= k < |works| && works[k].modeOfTransaction == Some(r[i]) && forall l :: 0 <= l <= k ==> works[l].modeOfTransaction != Some(r[j])
  {
    Options(Column(works, (w: Work) => w.modeOfTransaction))
  }

  /** The filter controls. Category, payer and mode are 'all' or an option;
      a date bound is `None` when its input is empty. */
  datatype Filters = Filters(searchTerm: string, category: string, paidBy: string, mode: string, start: Option<int>, end: Option<int>)

  /** The "Clear Filters" button: an empty term, every dropdown 'all', no
      dates. */
  const Cleared: Filters := Filters("", "all", "all", "all", None, None)

  /** The search test: the details, category or payer contains the term,
      ignoring case. It has no guard for an empty term. */
  predicate MatchesSearch(w: Work, term: string) {
    FieldHas(w.workDetails, term) || FieldHas(w.workCategory, term) || FieldHas(w.paidBy, term)
  }

  /** Whether a work passes the filters: the search, the three dropdowns
      (each passing everything on 'all') and the date range. */
  predicate Keeps(f: Filters, w: Work) {
    && MatchesSearch(w, f.searchTerm)
    && (f.category == "all" || w.workCategory == Some(f.category))
    && (f.paidBy == "all" || w.paidBy == Some(f.paidBy))
    && (f.mode == "all" || w.modeOfTransaction == Some(f.mode))
    && InRange(f.start, f.end, w.date.time)
  }

  /** `filteredWorks`: one filter over the loaded works. */
  function FilterWorks(works: seq<Work>, f: Filters): (r: seq<Work>)
    ensures forall w :: w in r <==> w in works && Keeps(f, w)
    ensures Seqs.IsSubsequence(r, works)
    ensures |r| == |set i: nat | i < |works| && Keeps(f, works[i])|
  {
    Seqs.FilterIsSubsequence(works, w => Keeps(f, w));
    Seqs.FilterCount(works, w => Keeps(f, w));
    assert Seqs.Passing(works, w => Keeps(f, w)) == set i: nat | i < |works| && Keeps(f, works[i]);
    Seqs.Filter(works, w => Keeps(f, w))
  }

  /** An empty term matches exactly the works that have details, a category
      or a payer; a work with none of them is never listed, whatever the
      filters. */
  lemma EmptySearchNeedsAField(works: seq<Work>, f: Filters, w: Work)
    ensures MatchesSearch(w, "") <==> w.workDetails.Some? || w.workCategory.Some? || w.paidBy.Some?
    ensures w.workDetails.None? && w.workCategory.None? && w.paidBy.None? ==> w !in FilterWorks(works, f)
  {
    Text.ContainsEmpty(Text.Lower(w.workDetails.GetOr("")), "");
    Text.ContainsEmpty(Text.Lower(w.workCategory.GetOr("")), "");
    Text.ContainsEmpty(Text.Lower(w.paidBy.GetOr("")), "");
  }

  /** With the filters cleared the page lists, in order, the works that have
      details, a category or a payer. */
  lemma {:induction false} ClearedShowsWorksWithAField(works: seq<Work>)
    ensures FilterWorks(works, Cleared) == Seqs.Filter(works, (w: Work) => w.workDetails.Some? || w.workCategory.Some? || w.paidBy.Some?)
  {
    forall i | 0 <= i < |works|
      ensures Keeps(Cleared, works[i]) == (works[i].workDetails.Some? || works[i].workCategory.Some? || works[i].paidBy.Some?)
    {
      EmptySearchNeedsAField(works, Cleared, works[i]);
    }
    Seqs.FilterExt(works, w => Keeps(Cleared, w), (w: Work) => w.workDetails.Some? || w.workCategory.Some? || w.paidBy.Some?);
  }

  /** The breakdown bucket of a work: its category, or 'Uncategorized' when
      it has none. */
  function Bucket(w: Work): (r: string)
    ensures r != ""
    ensures w.workCategory.Some? && w.workCategory.value != "" ==> r == w.workCategory.value
    ensures OrEmpty(w.workCategory) == "" ==> r == "Uncategorized"
  {
    if w.workCategory.Some? && w.workCategory.value != "" then w.workCategory.value else "Uncategorized"
  }

  /** The works of `works` in bucket `k`, in order. */
  function BucketOf(works: seq<Work>, k: string): (r: seq<Work>)
    ensures forall w :: w in r <==> w in works && Bucket(w) == k
  {
    Seqs.Filter(works, (w: Work) => Bucket(w) == k)
  }

  /** `b` maps each bucket some work of `works` falls in, and only those, to
      the works in it. */
  ghost predicate IsBreakdown(b: map<string, seq<Work>>, works: seq<Work>) {
    forall k :: (k in b <==> BucketOf(works, k) != []) && (k in b ==> b[k] == BucketOf(works, k))
  }

  /** Adding a work to its bucket extends the breakdown by that work. */
  lemma BreakdownStep(b: map<string, seq<Work>>, all: seq<Work>, i: nat)
    requires i < |all| && IsBreakdown(b, all[..i])
    ensures IsBreakdown(b[Bucket(all[i]) := (if Bucket(all[i]) in b then b[Bucket(all[i])] else []) + [all[i]]], all[..i + 1])
  {
    var works, w := all[..i], all[i];
    assert all[..i + 1] == works + [w];
    var b' := b[Bucket(w) := (if Bucket(w) in b then b[Bucket(w)] else []) + [w]];
    forall k
      ensures (k in b' <==> BucketOf(works + [w], k) != []) && (k in b' ==> b'[k] == BucketOf(works + [w], k))
    {
      Seqs.FilterAppend(works, w, (w: Work) => Bucket(w) == k);
      assert BucketOf(works + [w], k) == BucketOf(works, k) + if Bucket(w) == k then [w] else [];
    }
  }

  /** `categoryBreakdown`: the filtered works visited in order, each added to
      the bucket of its category. A bucket holds the works whose amounts the
      page sums. */
  method CategoryBreakdown(works: seq<Work>) returns (b: map<string, seq<Work>>)
    ensures forall k :: k in b <==> exists w :: w in works && Bucket(w) == k
    ensures forall k :: k in b ==> b[k] == BucketOf(works, k)
  {
    b := map[];
    var i := 0;
    while i < |works|
      invariant 0 <= i <= |works|
      invariant IsBreakdown(b, works[..i])
    {
      var w := works[i];
      var bucket := if Bucket(w) in b then b[Bucket(w)] else [];
      BreakdownStep(b, works, i);
      b, i := b[Bucket(w) := bucket + [w]], i + 1;
    }
    assert works[..i] == works;
    BreakdownKeys(b, works);
  }

  /** A breakdown's keys are the buckets of the works. */
  lemma BreakdownKeys(b: map<string, seq<Work>>, works: seq<Work>)
    requires IsBreakdown(b, works)
    ensures forall k :: k in b <==> exists w :: w in works && Bucket(w) == k
    ensures forall k :: k in b ==> b[k] == BucketOf(works, k)
  {
    forall k
      ensures k in b <==> exists w :: w in works && Bucket(w) == k
    {
      if BucketOf(works, k) != [] {
        assert BucketOf(works, k)[0] in BucketOf(works, k);
      }
    }
  }

  /** Every work of the breakdown's input lies in exactly one bucket, the
      one its category names. */
  lemma EachWorkInOneBucket(works: seq<Work>, w: Work, k: string)
    requires w in works
    ensures w in BucketOf(works, Bucket(w))
    ensures k != Bucket(w) ==> w !in BucketOf(works, k)
  {
  }

  const Headers: seq<string> := ["Date", "Category", "Details", "Paid By", "Amount", "Mode"]

  /** A work's cells, unquoted; a missing field joins as "". */
  function Cells(w: Work): (r: seq<string>)
    ensures |r| == |Headers|
  {
    [w.date.text, OrEmpty(w.workCategory), OrEmpty(w.workDetails), OrEmpty(w.paidBy), OrEmpty(w.amount), OrEmpty(w.modeOfTransaction)]
  }

  /** The header row and one row of cells per shown work, in order. */
  function Table(shown: seq<Work>): (r: seq<seq<string>>)
    ensures |r| == |shown| + 1 && r[0] == Headers
    ensures forall i :: 0 <= i < |shown| ==> r[i + 1] == Cells(shown[i])
  {
    Csv.Sheet(Headers, shown, Cells)
  }

  /** `exportToCSV`: the header and the rows, joined without quoting. */
  function Export(shown: seq<Work>): string {
    Csv.Table(Table(shown))
  }

  /** When no field holds a line break the export has the header line and
      one line per shown work, in order; a line whose fields hold no comma
      splits back into the work's six cells. */
  lemma ExportLines(shown: seq<Work>)
    requires forall i, j :: 0 <= i < |shown| && 0 <= j < |Headers| ==> '\n' !in Cells(shown[i])[j]
    ensures |Text.Split(Export(shown), '\n')| == |shown| + 1
    ensures Text.Split(Text.Split(Export(shown), '\n')[0], ',') == Headers
    ensures forall i :: 0 <= i < |shown| ==> Text.Split(Export(shown), '\n')[i + 1] == Csv.Line(Cells(shown[i]))
    ensures forall i :: 0 <= i < |shown| && (forall j :: 0 <= j < |Headers| ==> ',' !in Cells(shown[i])[j]) ==>
              Text.Split(Text.Split(Export(shown), '\n')[i + 1], ',') == Cells(shown[i])
  {
    Csv.SheetLines(Headers, shown, Cells);
  }

  /** `handleSubmit`: upsert the edited work's form with its id, or create
      the form; a successful save reloads with a forced sync and closes the
      form. */
  function Submit(editing: Option<Work>, form: map<string, Json.Value>, callOk: bool): (r: seq<Ledger.Step>)
    ensures |r| >= 1
    ensures editing.Some? ==> r[0] == Ledger.Send(Ledger.Upsert(Ledger.WithId(form, editing.value.id)))
    ensures editing.None? ==> r[0] == Ledger.Send(Ledger.Create(form))
    ensures callOk <==> Ledger.Reload(true) in r
  {
    var id := match editing case Some(w) => Some(w.id) case None => None;
    var r := Ledger.SubmitSteps(id, form, callOk);
    assert callOk ==> r[1] == Ledger.Reload(true);
    r
  }

  /** `handleDelete`: after confirmation, delete the work by id; a
      successful delete reloads with a forced sync. */
  function Delete(w: Work, confirmed: bool, callOk: bool): (r: seq<Ledger.Step>)
    ensures confirmed ==> |r| >= 1 && r[0] == Ledger.Send(Ledger.Delete(w.id))
    ensures !confirmed ==> r == []
    ensures confirmed && callOk <==> Ledger.Reload(true) in r
  {
    var r := Ledger.DeleteSteps(w.id, confirmed, callOk);
    assert confirmed && callOk ==> r[1] == Ledger.Reload(true);
    r
  }
}
