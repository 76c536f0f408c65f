/** The add/edit modal: opening it (a blank template for add, a record
    fetched by code for edit) and confirming it (required-field validation,
    then add or update through the API). */
module DictDataModal {
  import opened Values
  import opened Callback
  import DictDataTable

  // ---------------------------------------------------------------------------
  // Opening the modal

  datatype ModalOutputs = ModalOutputs(
    visible: bool,
    title: string,
    formValue: Value,
    validateStatuses: Value,
    helps: Value,
    modalType: Value)

  const AddTitle := "新增字典数据"
  const EditTitle := "编辑字典数据"
  const EditContent := "修改"

  const TemplateKeys: set<string> :=
    {"dict_type", "dict_label", "dict_value", "css_class", "dict_sort", "list_class", "status", "remark"}

  /** The blank record the add path opens with. `normal` is the value of
      SysNormalDisableConstant.NORMAL. */
  function AddTemplate(dictType: Value, normal: Value): map<string, Value> {
    map[
      "dict_type" := dictType,
      "dict_label" := Null,
      "dict_value" := Null,
      "css_class" := Null,
      "dict_sort" := Int(0),
      "list_class" := Str("default"),
      "status" := normal,
      "remark" := Null]
  }

  /** `int(','.join(selected_row_keys))`: None when the join raises (the
      selection is not a list of strings) or int() does. */
  function SelectedCode(selectedRowKeys: Value): Option<int> {
    if selectedRowKeys.List? && forall i | 0 <= i < |selectedRowKeys.items| :: selectedRowKeys.items[i].Str?
    then ParseInt(Join(",", seq(|selectedRowKeys.items|, i requires 0 <= i < |selectedRowKeys.items| => selectedRowKeys.items[i].s)))
    else None
  }

  /** `int(recently_button_clicked_row['key'])`. */
  function ClickedRowCode(row: Value): Option<int> {
    if row.Obj? && "key" in row.fields then PyInt(row.fields["key"]) else None
  }

  predicate OpensEdit(trigger: TriggerId, clickedContent: Value) {
    trigger == OperationButton("edit") || (trigger == Named(ListTableId) && clickedContent == Str(EditContent))
  }

  /** `add_edit_dict_data_modal`. */
  function AddEditModal(
    trigger: TriggerId, selectedRowKeys: Value, clickedContent: Value, recentlyButtonClickedRow: Value,
    dictTypeSelect: Value, normal: Value, sv: Services)
    : (r: Reply<ModalOutputs>)
    // add: no request; the blank template, validation cleared, modal type add
    ensures trigger == OperationButton("add") ==>
      r.calls == [] && r.outcome.Fire?
      && var o := r.outcome.out;
      && o.visible && o.title == AddTitle && o.modalType == TypeTag("add")
      && o.validateStatuses == Null && o.helps == Null
      && o.formValue.Obj? && o.formValue.fields.Keys == TemplateKeys
      && o.formValue.fields["dict_type"] == dictTypeSelect
      && o.formValue.fields["dict_sort"] == Int(0)
      && o.formValue.fields["list_class"] == Str("default")
      && o.formValue.fields["status"] == normal
      && (forall k | k in {"dict_label", "dict_value", "css_class", "remark"} :: o.formValue.fields[k] == Null)
    // edit: one fetch of the selected or clicked row's code, and the record it returns
    ensures OpensEdit(trigger, clickedContent) ==>
      var code := if trigger == OperationButton("edit") then SelectedCode(selectedRowKeys)
                  else ClickedRowCode(recentlyButtonClickedRow);
      && (code.None? ==> r == Reply(Raise, []))
      && (code.Some? ==> r.calls == [GetData(code.value)])
      && (code.Some? && sv.getData(code.value).Failed? ==> r.outcome == Raise)
      && (code.Some? && sv.getData(code.value).Ok? ==>
            r.outcome == Fire(ModalOutputs(true, EditTitle, sv.getData(code.value).value, Null, Null, TypeTag("edit"))))
    // anything else: PreventUpdate
    ensures trigger != OperationButton("add") && !OpensEdit(trigger, clickedContent) ==> r == Reply(Prevent, [])
  {
    if trigger == OperationButton("add") then
      Reply(Fire(ModalOutputs(true, AddTitle, Obj(AddTemplate(dictTypeSelect, normal)), Null, Null, TypeTag("add"))), [])
    else if OpensEdit(trigger, clickedContent) then
      var code := if trigger == OperationButton("edit") then SelectedCode(selectedRowKeys)
                  else ClickedRowCode(recentlyButtonClickedRow);
      match code
      case None => Reply(Raise, [])
      case Some(c) =>
        match sv.getData(c)
        case Failed => Reply(Raise, [GetData(c)])
        case Ok(info) => Reply(Fire(ModalOutputs(true, EditTitle, info, Null, Null, TypeTag("edit"))), [GetData(c)])
    else Reply(Prevent, [])
  }

  /** Edit with exactly one selected key, the text of a code, fetches that code. */
  lemma EditButtonFetchesSelectedCode(code: int, clickedContent: Value, row: Value, dictType: Value, normal: Value, sv: Services)
    ensures AddEditModal(OperationButton("edit"), List([Str(DecimalString(code))]), clickedContent, row, dictType, normal, sv).calls
      == [GetData(code)]
  {
    var keys := List([Str(DecimalString(code))]);
    assert seq(|keys.items|, i requires 0 <= i < |keys.items| => keys.items[i].s) == [DecimalString(code)];
    ParseIntDecimalString(code);
  }

  /** With two keys or more selected, `int('a,b')` raises and nothing is fetched
      (the edit button is disabled then, see EditButtonDisabled). */
  lemma EditButtonManyKeysRaises(keys: seq<string>, clickedContent: Value, row: Value, dictType: Value, normal: Value, sv: Services)
    requires |keys| >= 2
    ensures AddEditModal(OperationButton("edit"), List(seq(|keys|, i requires 0 <= i < |keys| => Str(keys[i]))),
                         clickedContent, row, dictType, normal, sv) == Reply(Raise, [])
  {
    var items := seq(|keys|, i requires 0 <= i < |keys| => Str(keys[i]));
    var texts := seq(|items|, i requires 0 <= i < |items| => items[i].s);
    assert texts == keys;
    var joined := Join(",", keys);
    assert joined == keys[0] + "," + Join(",", keys[1..]);
    assert joined[|keys[0]|] == ',';
    ParseIntRejectsComma(joined);
  }

  /** Clicking the edit link of a row the table shows fetches that row's code. */
  lemma RowEditFetchesRowCode(item: map<string, Value>, tableSv: Services,
                              selected: Value, dictType: Value, normal: Value, sv: Services)
    requires "dict_code" in item && item["dict_code"].Int?
    ensures var row := Obj(DictDataTable.DecorateRow(item, tableSv));
      AddEditModal(Named(ListTableId), selected, Str(EditContent), row, dictType, normal, sv).calls
      == [GetData(item["dict_code"].i)]
  {
    DictDataTable.RowKeyParsesToCode(item, tableSv);
  }

  // ---------------------------------------------------------------------------
  // Confirming the modal

  /** One required form item: its field name (`id.index`) and its label (`value`). */
  datatype RequiredLabel = RequiredLabel(index: string, caption: Value)

  /** `{x['id']['index']: x.get('value') for x in states}`: a later item with
      the same index wins. */
  function LabelMap(required: seq<RequiredLabel>): (m: map<string, Value>)
    ensures m.Keys == set i | 0 <= i < |required| :: required[i].index
  {
    if required == [] then map[]
    else
      var last := required[|required| - 1];
      LabelMap(required[..|required| - 1])[last.index := last.caption]
  }

  function Indices(required: seq<RequiredLabel>): (keys: seq<string>)
    ensures |keys| == |required| && forall i | 0 <= i < |required| :: keys[i] == required[i].index
  {
    seq(|required|, i requires 0 <= i < |required| => required[i].index)
  }

  /** Whether every required field of the form is non-empty. */
  predicate AllPresent(form: map<string, Value>, keys: seq<string>, notEmpty: Value -> bool) {
    forall i | 0 <= i < |keys| :: notEmpty(Get(form, keys[i]))
  }

  /** Which of the two validation dicts is being built. */
  datatype Feedback = Status | Help

  /** The entry of a field: None when it is filled in, else 'error' or
      '<label>不能为空!'. */
  function Entry(kind: Feedback, caption: Value, present: bool): Value {
    if present then Null
    else match kind
      case Status => Str("error")
      case Help => Str(PyStr(caption) + "不能为空!")
  }

  /** `{labels.get(k): <entry of k> for k in keys}`, keyed by label. */
  function ByLabel(kind: Feedback, keys: seq<string>, labels: map<string, Value>,
                   form: map<string, Value>, notEmpty: Value -> bool): (m: map<Value, Value>)
    ensures m.Keys == set i | 0 <= i < |keys| :: Get(labels, keys[i])
  {
    if keys == [] then map[]
    else
      var k := keys[|keys| - 1];
      var prefix := keys[..|keys| - 1];
      var m := ByLabel(kind, prefix, labels, form, notEmpty)[Get(labels, k) := Entry(kind, Get(labels, k), notEmpty(Get(form, k)))];
      assert forall i | 0 <= i < |prefix| :: prefix[i] == keys[i];
      m
  }

  /** Distinct fields carry distinct labels. */
  predicate LabelsDistinct(keys: seq<string>, labels: map<string, Value>) {
    forall i, j | 0 <= i < |keys| && 0 <= j < |keys| && Get(labels, keys[i]) == Get(labels, keys[j]) :: keys[i] == keys[j]
  }

  /** With distinct labels, each field's label maps to that field's own entry. */
  lemma {:induction false} ByLabelAt(kind: Feedback, keys: seq<string>, labels: map<string, Value>,
                                     form: map<string, Value>, notEmpty: Value -> bool, i: nat)
    requires i < |keys| && LabelsDistinct(keys, labels)
    ensures var m := ByLabel(kind, keys, labels, form, notEmpty);
      Get(labels, keys[i]) in m
      && m[Get(labels, keys[i])] == Entry(kind, Get(labels, keys[i]), notEmpty(Get(form, keys[i])))
    decreases |keys|
  {
    var prefix := keys[..|keys| - 1];
    if i < |keys| - 1 && keys[i] != keys[|keys| - 1] {
      assert LabelsDistinct(prefix, labels) by {
        forall a, b | 0 <= a < |prefix| && 0 <= b < |prefix| && Get(labels, prefix[a]) == Get(labels, prefix[b])
          ensures prefix[a] == prefix[b]
        {
          assert prefix[a] == keys[a] && prefix[b] == keys[b];
        }
      }
      assert prefix[i] == keys[i];
      ByLabelAt(kind, prefix, labels, form, notEmpty, i);
    }
  }

  datatype ConfirmOutputs = ConfirmOutputs(
    validateStatuses: Option<map<Value, Value>>,
    helps: Option<map<Value, Value>>,
    visible: Field<bool>,
    operations: Field<Value>)

  /** `dict_data_confirm`. `required` lists the required form items in order. */
  function Confirm(confirmTrigger: Value, modalType: Value, formValue: Value,
                   required: seq<RequiredLabel>, sv: Services): (r: Reply<ConfirmOutputs>)
    ensures !Truthy(confirmTrigger) ==> r == Reply(Prevent, [])
    ensures Truthy(confirmTrigger) && !formValue.Obj? ==> r == Reply(Raise, [])
    // a required field is empty: no request; both dicts, modal and signal untouched
    ensures Truthy(confirmTrigger) && formValue.Obj? && !AllPresent(formValue.fields, Indices(required), sv.notEmpty) ==>
      r.calls == [] && r.outcome.Fire?
      && r.outcome.out.validateStatuses.Some? && r.outcome.out.helps.Some?
      && r.outcome.out.visible == Keep && r.outcome.out.operations == Keep
    // all present: add calls add only, edit calls update only, then close and signal
    ensures Truthy(confirmTrigger) && formValue.Obj? && AllPresent(formValue.fields, Indices(required), sv.notEmpty) ==>
      var form := formValue.fields;
      && (!modalType.Obj? ==> r == Reply(Raise, []))
      && (modalType.Obj? && Get(modalType.fields, "type") == Str("add") ==>
            && (sv.accepts(AddData(form)) ==>
                  r == Reply(Fire(ConfirmOutputs(None, None, Set(false), Set(TypeTag("add")))),
                             [AddData(form), CacheDelete(Get(form, "dict_type")), NotifySuccess("新增成功")]))
            && (!sv.accepts(AddData(form)) ==> r == Reply(Raise, [AddData(form)])))
      && (modalType.Obj? && Get(modalType.fields, "type") == Str("edit") ==>
            && (sv.accepts(UpdateData(form)) ==>
                  r == Reply(Fire(ConfirmOutputs(None, None, Set(false), Set(TypeTag("edit")))),
                             [UpdateData(form), CacheDelete(Get(form, "dict_type")), NotifySuccess("编辑成功")]))
            && (!sv.accepts(UpdateData(form)) ==> r == Reply(Raise, [UpdateData(form)])))
      && (modalType.Obj? && Get(modalType.fields, "type") !in {Str("add"), Str("edit")} ==>
            r == Reply(Fire(ConfirmOutputs(None, None, Keep, Keep)), []))
  {
    if !Truthy(confirmTrigger) then Reply(Prevent, [])
    else if !formValue.Obj? then Reply(Raise, [])
    else
      var form := formValue.fields;
      var keys := Indices(required);
      var labels := LabelMap(required);
      if AllPresent(form, keys, sv.notEmpty) then
        if !modalType.Obj? then Reply(Raise, [])
        else
          var t := Get(modalType.fields, "type");
          if t == Str("add") then
            if sv.accepts(AddData(form)) then
              Reply(Fire(ConfirmOutputs(None, None, Set(false), Set(TypeTag("add")))),
                    [AddData(form), CacheDelete(Get(form, "dict_type")), NotifySuccess("新增成功")])
            else Reply(Raise, [AddData(form)])
          else if t == Str("edit") then
            if sv.accepts(UpdateData(form)) then
              Reply(Fire(ConfirmOutputs(None, None, Set(false), Set(TypeTag("edit")))),
                    [UpdateData(form), CacheDelete(Get(form, "dict_type")), NotifySuccess("编辑成功")])
            else Reply(Raise, [UpdateData(form)])
          else Reply(Fire(ConfirmOutputs(None, None, Keep, Keep)), [])
      else
        Reply(Fire(ConfirmOutputs(Some(ByLabel(Status, keys, labels, form, sv.notEmpty)),
                                  Some(ByLabel(Help, keys, labels, form, sv.notEmpty)),
                                  Keep, Keep)), [])
  }

  /** Required items with distinct field names and distinct labels. */
  predicate WellFormed(required: seq<RequiredLabel>) {
    forall i, j | 0 <= i < j < |required| :: required[i].index != required[j].index && required[i].caption != required[j].caption
  }

  lemma {:induction false} LabelMapAt(required: seq<RequiredLabel>, i: nat)
    requires i < |required| && WellFormed(required)
    ensures Get(LabelMap(required), required[i].index) == required[i].caption
    decreases |required|
  {
    if i < |required| - 1 {
      var prefix := required[..|required| - 1];
      assert prefix[i] == required[i];
      LabelMapAt(prefix, i);
    }
  }

  /** With a field missing, each required field's label is marked 'error' and
      given '<label>不能为空!' exactly when that field is empty. */
  lemma ConfirmReportsEachEmptyField(confirmTrigger: Value, modalType: Value, form: map<string, Value>,
                                     required: seq<RequiredLabel>, sv: Services, i: nat)
    requires Truthy(confirmTrigger) && WellFormed(required) && i < |required|
    requires !AllPresent(form, Indices(required), sv.notEmpty)
    ensures var o := Confirm(confirmTrigger, modalType, Obj(form), required, sv).outcome.out;
      var caption := required[i].caption;
      var empty := !sv.notEmpty(Get(form, required[i].index));
      && caption in o.validateStatuses.value && caption in o.helps.value
      && (o.validateStatuses.value[caption] == Str("error") <==> empty)
      && (!empty ==> o.validateStatuses.value[caption] == Null)
      && (o.helps.value[caption] == Str(PyStr(caption) + "不能为空!") <==> empty)
      && (!empty ==> o.helps.value[caption] == Null)
  {
    var keys := Indices(required);
    var labels := LabelMap(required);
    forall a | 0 <= a < |required| ensures Get(labels, keys[a]) == required[a].caption {
      LabelMapAt(required, a);
    }
    assert LabelsDistinct(keys, labels);
    ByLabelAt(Status, keys, labels, form, sv.notEmpty, i);
    ByLabelAt(Help, keys, labels, form, sv.notEmpty, i);
  }

  /** A rejected submit always flags at least one field as 'error'. */
  lemma ConfirmFlagsSomeField(confirmTrigger: Value, modalType: Value, form: map<string, Value>,
                              required: seq<RequiredLabel>, sv: Services)
    requires Truthy(confirmTrigger) && WellFormed(required)
    requires !AllPresent(form, Indices(required), sv.notEmpty)
    ensures var o := Confirm(confirmTrigger, modalType, Obj(form), required, sv).outcome.out;
      Str("error") in o.validateStatuses.value.Values
  {
    var keys := Indices(required);
    var i :| 0 <= i < |keys| && !sv.notEmpty(Get(form, keys[i]));
    ConfirmReportsEachEmptyField(confirmTrigger, modalType, form, required, sv, i);
  }
}
