/** The save and delete steps the expenses and investments pages share.
    Both pages send their list, create, upsert and delete calls to a client
    that is not part of this model, so a step records the call and the
    outcome of the call is a parameter. */
module Ledger {
  import opened Wrappers
  import opened Json

  /** The calls a page sends for one kind of record. */
  datatype Call =
    | Create(data: map<string, Value>)
    | Upsert(data: map<string, Value>)
    | Delete(id: string)

  /** What a handler does, in order: send a call, reload the list (with or
      without a forced sync) or close the form. */
  datatype Step = Send(call: Call) | Reload(forceSync: bool) | CloseModal

  /** `{ ...form, id }`: the form's fields, with `id` set last. */
  function WithId(form: map<string, Value>, id: string): (r: map<string, Value>)
    ensures r.Keys == form.Keys + {"id"}
    ensures r["id"] == JStr(id)
    ensures forall k :: k in form && k != "id" ==> r[k] == form[k]
  {
    form + map["id" := JStr(id)]
  }

  /** `handleSubmit`: editing a record upserts the form with the record's
      id; otherwise the form is created as it is. Only when the call
      succeeds does the page reload with a forced sync and close the form;
      a failure is only logged. */
  function SubmitSteps(editingId: Option<string>, form: map<string, Value>, callOk: bool): (r: seq<Step>)
    ensures |r| >= 1 && r[0].Send?
    ensures editingId.Some? ==> r[0].call == Upsert(WithId(form, editingId.value))
    ensures editingId.None? ==> r[0].call == Create(form)
    ensures callOk ==> r[1..] == [Reload(true), CloseModal]
    ensures !callOk ==> |r| == 1
  {
    var call := match editingId
      case Some(id) => Upsert(WithId(form, id))
      case None => Create(form);
    [Send(call)] + if callOk then [Reload(true), CloseModal] else []
  }

  /** `handleDelete`: nothing happens unless the user confirms; then the
      record's id is sent, and a successful delete is followed by a reload
      with a forced sync. */
  function DeleteSteps(id: string, confirmed: bool, callOk: bool): (r: seq<Step>)
    ensures !confirmed <==> r == []
    ensures confirmed ==> r[0] == Send(Delete(id))
    ensures confirmed && callOk ==> r[1..] == [Reload(true)]
    ensures confirmed && !callOk ==> |r| == 1
  {
    if !confirmed then []
    else [Send(Delete(id))] + if callOk then [Reload(true)] else []
  }

  /** In a run of handler steps, every call is followed at once by a forced
      reload exactly when it succeeded. */
  predicate RefreshedAfterSuccess(steps: seq<Step>, callOk: bool) {
    forall i :: 0 <= i < |steps| && steps[i].Send? ==>
      (i + 1 < |steps| && steps[i + 1] == Reload(true)) == callOk
  }

  /** Both handlers reload after a successful call and only then. */
  lemma MutationsRefresh(editingId: Option<string>, form: map<string, Value>, id: string, confirmed: bool, callOk: bool)
    ensures RefreshedAfterSuccess(SubmitSteps(editingId, form, callOk), callOk)
    ensures RefreshedAfterSuccess(DeleteSteps(id, confirmed, callOk), callOk)
  {
    var s := SubmitSteps(editingId, form, callOk);
    assert forall i :: 0 <= i < |s| && s[i].Send? ==> i == 0;
    if callOk {
      assert s[1] == Reload(true);
    }
    var d := DeleteSteps(id, confirmed, callOk);
    if confirmed && callOk {
      assert d[1] == Reload(true);
    }
  }
}
