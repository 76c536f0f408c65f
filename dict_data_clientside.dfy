/** The screen's browser-side callbacks: resetting the search filters,
    hiding the search form, enabling the edit and delete buttons from the
    row selection, and binding the form store to the form two ways. */
module DictDataClientside {
  import opened Values
  import opened Callback
  import DictDataTable

  // ---------------------------------------------------------------------------
  // Reset of the search form

  datatype ResetOutputs = ResetOutputs(dictLabel: Value, status: Value, operations: Value)

  /** The reset button clears the label and status filters and posts the
      operation signal `{'type': 'reset'}`. */
  function ResetSearch(resetClick: Value): (r: Outcome<ResetOutputs>)
    ensures r.Fire? <==> JsTruthy(resetClick)
    ensures !r.Fire? ==> r == NoUpdate
    ensures r.Fire? ==> r.out.dictLabel == Null && r.out.status == Null && r.out.operations == TypeTag("reset")
  {
    if JsTruthy(resetClick) then Fire(ResetOutputs(Null, Null, TypeTag("reset")))
    else NoUpdate
  }

  /** The reset signal refreshes the table with the label and status filters
      cleared, on page 1 of 10. */
  lemma ResetRefreshesWithClearedFilters(resetClick: Value, searchClick: Value, refreshClick: Value,
                                         pagination: Value, dictType: Value)
    requires JsTruthy(resetClick)
    ensures var reset := ResetSearch(resetClick).out;
      && DictDataTable.AnyFired(searchClick, refreshClick, pagination, reset.operations)
      && DictDataTable.ListQuery(Named(OperationsStoreId), pagination, dictType, reset.dictLabel, reset.status)
         == Some(map["dict_type" := dictType, "dict_label" := Null, "status" := Null,
                     "page_num" := Int(1), "page_size" := Int(10)])
  {
  }

  // ---------------------------------------------------------------------------
  // Hiding and showing the search form

  datatype HideOutputs = HideOutputs(hidden: bool, title: string)

  const HideTitle := "隐藏搜索"
  const ShowTitle := "显示搜索"

  /** The hide button flips the form's `hidden` flag; the tooltip then offers
      the opposite action. */
  function HideSearch(hiddenClick: Value, hiddenStatus: Value): (r: Outcome<HideOutputs>)
    ensures r.Fire? <==> JsTruthy(hiddenClick)
    ensures !r.Fire? ==> r == NoUpdate
    ensures r.Fire? ==> r.out.hidden == !JsTruthy(hiddenStatus)
    // the tooltip offers to show the form exactly when the form is now hidden
    ensures r.Fire? ==> (r.out.title == ShowTitle <==> r.out.hidden) && r.out.title in {ShowTitle, HideTitle}
  {
    if JsTruthy(hiddenClick) then
      Fire(HideOutputs(!JsTruthy(hiddenStatus), if JsTruthy(hiddenStatus) then HideTitle else ShowTitle))
    else NoUpdate
  }

  /** Two clicks bring the form back to where it was. */
  lemma HideSearchTwice(click: Value, hiddenStatus: Value)
    requires JsTruthy(click)
    ensures var once := HideSearch(click, hiddenStatus).out;
      HideSearch(click, Bool(once.hidden)).out.hidden == JsTruthy(hiddenStatus)
  {
  }

  // ---------------------------------------------------------------------------
  // Edit and delete buttons

  /** JavaScript's `v?.length` for the table's `selectedRowKeys`: the number
      of keys of an array, undefined (None) for null. */
  function SelectionLength(selected: Value): Option<nat> {
    if selected.List? then Some(|selected.items|) else None
  }

  /** The edit button's `disabled`: enabled only for a single selected row.
      `outputsList` is whether the callback context lists the output. */
  function EditButtonDisabled(outputsList: bool, selected: Value): (r: Outcome<bool>)
    ensures r.Fire? <==> outputsList
    ensures !r.Fire? ==> r == Prevent
    ensures r.Fire? ==> (!r.out <==> selected.List? && |selected.items| == 1)
  {
    if outputsList then Fire(!(SelectionLength(selected) == Some(1))) else Prevent
  }

  /** The delete button's `disabled`: enabled for one selected row or more. */
  function DeleteButtonDisabled(outputsList: bool, selected: Value): (r: Outcome<bool>)
    ensures r.Fire? <==> outputsList
    ensures !r.Fire? ==> r == Prevent
    ensures r.Fire? ==> (!r.out <==> selected.List? && |selected.items| > 0)
  {
    if outputsList then
      Fire(!(SelectionLength(selected).Some? && SelectionLength(selected).value > 0))
    else Prevent
  }

  /** Whenever edit is enabled, so is delete; a null selection disables both. */
  lemma EditEnabledImpliesDeleteEnabled(selected: Value)
    ensures EditButtonDisabled(true, selected) == Fire(false) ==> DeleteButtonDisabled(true, selected) == Fire(false)
    ensures EditButtonDisabled(true, Null) == Fire(true) && DeleteButtonDisabled(true, Null) == Fire(true)
  {
  }

  // ---------------------------------------------------------------------------
  // Two-way binding of the form store and the form

  /** `Object.assign(target, source)` on the entries: every key of a source
      object is written onto the target, the target's other keys are kept.
      A form's values are an object or null; any source that is not an object
      is taken to copy nothing (JavaScript would copy a string's or an array's
      elements under their index keys). */
  function Assigned(target: map<string, Value>, source: Value): (r: map<string, Value>)
    ensures source.Obj? ==> r.Keys == target.Keys + source.fields.Keys
    ensures source.Obj? ==> forall k | k in source.fields :: r[k] == source.fields[k]
    ensures forall k | k in target && !(source.Obj? && k in source.fields) :: k in r && r[k] == target[k]
    ensures !source.Obj? ==> r == target
  {
    if source.Obj? then target + source.fields else target
  }

  /** Writing the same form twice changes nothing more. */
  lemma AssignedIdempotent(target: map<string, Value>, source: Value)
    ensures Assigned(Assigned(target, source), source) == Assigned(target, source)
  {
  }

  /** The form store's data object, which the binding callback receives as
      `row_data` and, on a form change, merges the form into in place. */
  class StoreData {
    var fields: map<string, Value>

    constructor (fields: map<string, Value>)
      ensures this.fields == fields
    {
      this.fields := fields;
    }

    /** `Object.assign(this, source)`, one key at a time. */
    method Assign(source: Value)
      modifies this
      ensures fields == Assigned(old(fields), source)
    {
      if source.Obj? {
        var pending := source.fields.Keys;
        while pending != {}
          invariant pending <= source.fields.Keys
          invariant fields.Keys == old(fields).Keys + (source.fields.Keys - pending)
          invariant forall k | k in source.fields && k !in pending :: fields[k] == source.fields[k]
          invariant forall k | k in old(fields) && (k !in source.fields || k in pending) :: fields[k] == old(fields)[k]
          decreases pending
        {
          var k :| k in pending;
          fields := fields[k := source.fields[k]];
          pending := pending - {k};
        }
        assert fields == old(fields) + source.fields;
      }
    }
  }

  /** The store's data as a value: JavaScript null when there is none. */
  function StoreValue(rowData: StoreData?): Value
    reads rowData
  {
    if rowData == null then Null else Obj(rowData.fields)
  }

  datatype BindOutputs = BindOutputs(store: Field<Value>, form: Field<Value>)

  /** The binding callback: a store change is copied to the form whole; a form
      change is merged into the store key by key; any other trigger aborts.
      Merging into a null store raises TypeError. */
  method BindForm(trigger: TriggerId, rowData: StoreData?, formValue: Value) returns (r: Outcome<BindOutputs>)
    modifies rowData
    ensures trigger == Named(FormStoreId) ==>
      r == Fire(BindOutputs(Keep, Set(old(StoreValue(rowData))))) && (rowData != null ==> unchanged(rowData))
    ensures trigger == Named(FormId) && rowData == null ==> r == Raise
    ensures trigger == Named(FormId) && rowData != null ==>
      rowData.fields == Assigned(old(rowData.fields), formValue)
      && r == Fire(BindOutputs(Set(Obj(rowData.fields)), Keep))
    ensures trigger != Named(FormStoreId) && trigger != Named(FormId) ==>
      r == Prevent && (rowData != null ==> unchanged(rowData))
  {
    if trigger == Named(FormStoreId) {
      return Fire(BindOutputs(Keep, Set(StoreValue(rowData))));
    }
    if trigger == Named(FormId) {
      if rowData == null {
        return Raise;
      }
      rowData.Assign(formValue);
      return Fire(BindOutputs(Set(Obj(rowData.fields)), Keep));
    }
    return Prevent;
  }
}
