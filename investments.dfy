/** The investments page: the filtered list, clearing the filters, the CSV
    export and the save and delete handlers. */
module Investments {
  import opened Wrappers
  import opened Records
  import Json
  import Text
  import Seqs
  import Csv
  import Ledger

  /** The search box and the date range; a date bound is `None` when its
      input is empty. */
  datatype Filters = Filters(searchTerm: string, start: Option<int>, end: Option<int>)

  /** The "Clear Filters" button: an empty term and no dates. */
  const Cleared: Filters := Filters("", None, None)

  /** Whether an investment passes the filters: its lower-cased name contains
      the lower-cased term (there is no guard for an empty term) and its date
      is in the range. */
  predicate Keeps(f: Filters, x: Investment) {
    FieldHas(x.name, f.searchTerm) && InRange(f.start, f.end, x.date.time)
  }

  /** `filteredInvestments`: one filter over the loaded investments. */
  function FilterInvestments(investments: seq<Investment>, f: Filters): (r: seq<Investment>)
    ensures forall x :: x in r <==> x in investments && Keeps(f, x)
    ensures Seqs.IsSubsequence(r, investments)
    ensures |r| == |set i: nat | i < |investments| && Keeps(f, investments[i])|
  {
    Seqs.FilterIsSubsequence(investments, x => Keeps(f, x));
    Seqs.FilterCount(investments, x => Keeps(f, x));
    assert Seqs.Passing(investments, x => Keeps(f, x)) == set i: nat | i < |investments| && Keeps(f, investments[i]);
    Seqs.Filter(investments, x => Keeps(f, x))
  }

  /** An investment without a name is never listed, whatever the filters;
      one with a name passes an empty search. */
  lemma EmptySearchNeedsAName(investments: seq<Investment>, f: Filters, x: Investment)
    ensures FieldHas(x.name, "") <==> x.name.Some?
    ensures x.name.None? ==> x !in FilterInvestments(investments, f)
  {
    Text.ContainsEmpty(Text.Lower(x.name.GetOr("")), "");
  }

  /** With the filters cleared the page lists, in order, the investments that
      have a name. */
  lemma {:induction false} ClearedShowsNamed(investments: seq<Investment>)
    ensures FilterInvestments(investments, Cleared) == Seqs.Filter(investments, (x: Investment) => x.name.Some?)
  {
    forall i | 0 <= i < |investments|
      ensures Keeps(Cleared, investments[i]) == investments[i].name.Some?
    {
      EmptySearchNeedsAName(investments, Cleared, investments[i]);
    }
    Seqs.FilterExt(investments, x => Keeps(Cleared, x), (x: Investment) => x.name.Some?);
  }

  const Headers: seq<string> := ["Date", "Name", "Amount"]

  /** An investment's cells, unquoted; a missing field joins as "". */
  function Cells(x: Investment): (r: seq<string>)
    ensures |r| == |Headers|
  {
    [x.date.text, OrEmpty(x.name), OrEmpty(x.amount)]
  }

  /** The header row and one row of cells per shown investment, in order. */
  function Table(shown: seq<Investment>): (r: seq<seq<string>>)
    ensures |r| == |shown| + 1 && r[0] == Headers
    ensures forall i :: 0 <= i < |shown| ==> r[i + 1] == Cells(shown[i])
  {
    Csv.Sheet(Headers, shown, Cells)
  }

  /** `exportToCSV`: the header and the rows, joined without quoting. */
  function Export(shown: seq<Investment>): string {
    Csv.Table(Table(shown))
  }

  /** When no field holds a line break the export has the header line and
      one line per shown investment, in order; a line whose fields hold no comma
      splits back into the investment's three cells. */
  lemma ExportLines(shown: seq<Investment>)
    requires forall i, j :: 0 <= i < |shown| && 0 <= j < |Headers| ==> '\n' !in Cells(shown[i])[j]
    ensures |Text.Split(Export(shown), '\n')| == |shown| + 1
    ensures Text.Split(Text.Split(Export(shown), '\n')[0], ',') == Headers
    ensures forall i :: 0 <= i < |shown| ==> Text.Split(Export(shown), '\n')[i + 1] == Csv.Line(Cells(shown[i]))
    ensures forall i :: 0 <= i < |shown| && (forall j :: 0 <= j < |Headers| ==> ',' !in Cells(shown[i])[j]) ==>
              Text.Split(Text.Split(Export(shown), '\n')[i + 1], ',') == Cells(shown[i])
  {
    Csv.SheetLines(Headers, shown, Cells);
  }

  /** `handleSubmit`: upsert the edited investment's form with its id, or
      create the form; a successful save reloads with a forced sync and
      closes the form. */
  function Submit(editing: Option<Investment>, form: map<string, Json.Value>, callOk: bool): (r: seq<Ledger.Step>)
    ensures |r| >= 1
    ensures editing.Some? ==> r[0] == Ledger.Send(Ledger.Upsert(Ledger.WithId(form, editing.value.id)))
    ensures editing.None? ==> r[0] == Ledger.Send(Ledger.Create(form))
    ensures callOk <==> Ledger.Reload(true) in r
  {
    var id := match editing case Some(x) => Some(x.id) case None => None;
    var r := Ledger.SubmitSteps(id, form, callOk);
    assert callOk ==> r[1] == Ledger.Reload(true);
    r
  }

  /** `handleDelete`: after confirmation, delete the investment by id; a
      successful delete reloads with a forced sync. */
  function Delete(x: Investment, confirmed: bool, callOk: bool): (r: seq<Ledger.Step>)
    ensures confirmed ==> |r| >= 1 && r[0] == Ledger.Send(Ledger.Delete(x.id))
    ensures !confirmed ==> r == []
    ensures confirmed && callOk <==> Ledger.Reload(true) in r
  {
    var r := Ledger.DeleteSteps(x.id, confirmed, callOk);
    assert confirmed && callOk ==> r[1] == Ledger.Reload(true);
    r
  }
}
