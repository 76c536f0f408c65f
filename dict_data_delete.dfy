/** Deleting dictionary data: the confirmation dialog built from the selected
    rows or a clicked row, and the delete request made on confirmation. */
module DictDataDelete {
  import opened Values
  import opened Callback

  datatype DeleteOutputs = DeleteOutputs(text: string, visible: bool, ids: Value)

  const DeleteContent := "删除"

  /** The dialog's question, naming the codes to delete. */
  function DeleteMessage(codes: Value): string {
    "是否确认删除字典编码为" + PyStr(codes) + "的数据？"
  }

  predicate AllRows(rows: seq<Value>) {
    forall i | 0 <= i < |rows| :: rows[i].Obj?
  }

  /** `[str(item.get('dict_code')) for item in selected_rows]`. */
  function RowCodes(rows: seq<Value>): (codes: seq<string>)
    requires AllRows(rows)
    ensures |codes| == |rows| && forall i | 0 <= i < |rows| :: codes[i] == PyStr(Get(rows[i].fields, "dict_code"))
  {
    seq(|rows|, i requires 0 <= i < |rows| => PyStr(Get(rows[i].fields, "dict_code")))
  }

  /** `[item.get('dict_type') for item in selected_rows]`. */
  function RowTypes(rows: seq<Value>): (types: seq<Value>)
    requires AllRows(rows)
    ensures |types| == |rows| && forall i | 0 <= i < |rows| :: types[i] == Get(rows[i].fields, "dict_type")
  {
    seq(|rows|, i requires 0 <= i < |rows| => Get(rows[i].fields, "dict_type"))
  }

  /** Joining the types raises unless every one is a string. */
  predicate AllText(types: seq<Value>) {
    forall i | 0 <= i < |types| :: types[i].Str?
  }

  function Texts(types: seq<Value>): (ts: seq<string>)
    requires AllText(types)
    ensures |ts| == |types| && forall i | 0 <= i < |types| :: ts[i] == types[i].s
  {
    seq(|types|, i requires 0 <= i < |types| => types[i].s)
  }

  predicate OpensDelete(trigger: TriggerId, clickedContent: Value) {
    trigger == OperationButton("delete") || (trigger == Named(ListTableId) && clickedContent == Str(DeleteContent))
  }

  /** `dict_data_delete_modal`. */
  function DeleteModal(trigger: TriggerId, selectedRows: Value, clickedContent: Value, recentlyButtonClickedRow: Value)
    : (r: Outcome<DeleteOutputs>)
    // the source's `return no_update` branch cannot be reached
    ensures r != NoUpdate
    ensures !OpensDelete(trigger, clickedContent) ==> r == Prevent
    // from the selection: codes joined in order, types joined once each
    ensures trigger == OperationButton("delete") ==>
      if selectedRows.List? && AllRows(selectedRows.items) && AllText(RowTypes(selectedRows.items)) then
        var rows := selectedRows.items;
        r.Fire? && r.out.visible
        && r.out.ids.Obj? && r.out.ids.fields.Keys == {"dict_codes", "dict_types"}
        && r.out.ids.fields["dict_codes"] == Str(Join(",", RowCodes(rows)))
        && r.out.ids.fields["dict_types"] == Str(Join(",", Distinct(Texts(RowTypes(rows)))))
        && r.out.text == DeleteMessage(r.out.ids.fields["dict_codes"])
      else r == Raise
    // from a row's delete link: that row's key and type
    ensures trigger != OperationButton("delete") && OpensDelete(trigger, clickedContent) ==>
      var row := recentlyButtonClickedRow;
      if row.Obj? && "key" in row.fields && "dict_type" in row.fields then
        r == Fire(DeleteOutputs(DeleteMessage(row.fields["key"]), true,
                                Obj(map["dict_codes" := row.fields["key"], "dict_types" := row.fields["dict_type"]])))
      else r == Raise
  {
    if trigger == OperationButton("delete") then
      if !selectedRows.List? || !AllRows(selectedRows.items) then Raise
      else
        var rows := selectedRows.items;
        var codes := Join(",", RowCodes(rows));
        var types := RowTypes(rows);
        if !AllText(types) then Raise
        else
          var ts := Distinct(Texts(types));
          Fire(DeleteOutputs(DeleteMessage(Str(codes)), true,
                             Obj(map["dict_codes" := Str(codes), "dict_types" := Str(Join(",", ts))])))
    else if trigger == Named(ListTableId) && clickedContent == Str(DeleteContent) then
      var row := recentlyButtonClickedRow;
      if row.Obj? && "key" in row.fields && "dict_type" in row.fields then
        Fire(DeleteOutputs(DeleteMessage(row.fields["key"]), true,
                           Obj(map["dict_codes" := row.fields["key"], "dict_types" := row.fields["dict_type"]])))
      else Raise
    else Prevent
  }

  /** The joined types name each selected row's type, and each only once. */
  lemma DeleteTypesDistinct(rows: seq<Value>)
    requires AllRows(rows) && AllText(RowTypes(rows))
    ensures var ts := Distinct(Texts(RowTypes(rows)));
      && (forall t :: t in ts <==> exists i | 0 <= i < |rows| :: Get(rows[i].fields, "dict_type") == Str(t))
      && (forall i, j | 0 <= i < j < |ts| :: ts[i] != ts[j])
  {
    var types := RowTypes(rows);
    forall t ensures t in Texts(types) <==> exists i | 0 <= i < |rows| :: Get(rows[i].fields, "dict_type") == Str(t) {
      if t in Texts(types) {
        var i :| 0 <= i < |types| && Texts(types)[i] == t;
        assert Get(rows[i].fields, "dict_type") == Str(t);
      }
    }
  }

  /** `dict_data_delete_confirm`: one delete with the stored codes, then the
      cache entry of the stored types, a notice and the signal
      `{'type': 'delete'}`. */
  function DeleteConfirm(deleteConfirm: Value, idsData: Value, sv: Services): (r: Reply<Value>)
    ensures !Truthy(deleteConfirm) ==> r == Reply(Prevent, [])
    ensures Truthy(deleteConfirm) && !idsData.Obj? ==> r == Reply(Raise, [])
    ensures Truthy(deleteConfirm) && idsData.Obj? ==>
      var codes := Get(idsData.fields, "dict_codes");
      && |r.calls| > 0 && r.calls[0] == DelData(codes)
      && (forall i | 0 < i < |r.calls| :: !r.calls[i].DelData?)
      && (r.outcome.Fire? <==> sv.accepts(DelData(codes)))
      && (r.outcome.Fire? ==>
            r.outcome.out == TypeTag("delete")
            && r.calls == [DelData(codes), CacheDelete(Get(idsData.fields, "dict_types")), NotifySuccess("删除成功")])
      && (!r.outcome.Fire? ==> r == Reply(Raise, [DelData(codes)]))
  {
    if !Truthy(deleteConfirm) then Reply(Prevent, [])
    else if !idsData.Obj? then Reply(Raise, [])
    else
      var params := Get(idsData.fields, "dict_codes");
      var dictTypes := Get(idsData.fields, "dict_types");
      if sv.accepts(DelData(params)) then
        Reply(Fire(TypeTag("delete")), [DelData(params), CacheDelete(dictTypes), NotifySuccess("删除成功")])
      else Reply(Raise, [DelData(params)])
  }

  /** Selected rows with integer codes and string types. */
  predicate CodedRows(rows: seq<map<string, Value>>) {
    forall i | 0 <= i < |rows| :: "dict_code" in rows[i] && rows[i]["dict_code"].Int? && Get(rows[i], "dict_type").Str?
  }

  function Selection(rows: seq<map<string, Value>>): (v: Value)
    ensures v.List? && |v.items| == |rows| && forall i | 0 <= i < |rows| :: v.items[i] == Obj(rows[i])
  {
    List(seq(|rows|, i requires 0 <= i < |rows| => Obj(rows[i])))
  }

  /** Deleting a selection: the dialog's codes split back into each selected
      row's code, in order, and confirming issues exactly one delete, with
      that joined string. */
  lemma DeleteSelectionFlow(rows: seq<map<string, Value>>, clickedContent: Value, row: Value, confirm: Value, sv: Services)
    requires |rows| > 0 && CodedRows(rows) && Truthy(confirm)
    ensures var shown := DeleteModal(OperationButton("delete"), Selection(rows), clickedContent, row);
      && shown.Fire? && shown.out.visible
      && var codes := shown.out.ids.fields["dict_codes"];
      && Split(codes.s, ',') == seq(|rows|, i requires 0 <= i < |rows| => DecimalString(rows[i]["dict_code"].i))
      && DeleteConfirm(confirm, shown.out.ids, sv).calls[0] == DelData(codes)
      && shown.out.text == DeleteMessage(codes)
  {
    var sel := Selection(rows).items;
    assert AllRows(sel);
    assert AllText(RowTypes(sel));
    var parts := RowCodes(sel);
    assert parts == seq(|rows|, i requires 0 <= i < |rows| => DecimalString(rows[i]["dict_code"].i));
    forall i | 0 <= i < |parts| ensures ',' !in parts[i] {
      DecimalStringNoComma(rows[i]["dict_code"].i);
    }
    SplitJoin(parts, ',');
  }
}
