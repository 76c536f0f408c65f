/** The callback that (re)loads the dictionary-data table: it builds the list
    query from the filters and the pagination, asks the API for one page, and
    decorates each row before the table shows it. */
module DictDataTable {
  import opened Values
  import opened Callback

  datatype TableOutputs = TableOutputs(
    data: seq<map<string, Value>>,
    pagination: map<string, Value>,
    key: string,
    selectedRowKeys: Value)

  const QueryKeys: set<string> := {"dict_type", "dict_label", "status", "page_num", "page_size"}

  const PaginationKeys: set<string> :=
    {"pageSize", "current", "showSizeChanger", "pageSizeOptions", "showQuickJumper", "total"}

  /** The fields a row receives before display. */
  const DecoratedKeys: set<string> := {"status", "create_time", "key", "operation"}

  /** Whether `pagination['current']` and `pagination['pageSize']` can be read. */
  predicate HasPageFields(pagination: Value) {
    pagination.Obj? && "current" in pagination.fields && "pageSize" in pagination.fields
  }

  /** The list request's parameters. The filters always go in; the page is 1 of
      10 unless the table itself fired, when the table's pagination decides
      it. None when reading that pagination raises. */
  function ListQuery(trigger: TriggerId, pagination: Value, dictType: Value, dictLabel: Value, statusSelect: Value)
    : (r: Option<map<string, Value>>)
    ensures r.None? <==> trigger == Named(ListTableId) && !HasPageFields(pagination)
    ensures r.Some? ==> r.value.Keys == QueryKeys
    ensures r.Some? ==>
      r.value["dict_type"] == dictType && r.value["dict_label"] == dictLabel && r.value["status"] == statusSelect
    ensures r.Some? && trigger != Named(ListTableId) ==> r.value["page_num"] == Int(1) && r.value["page_size"] == Int(10)
    ensures r.Some? && trigger == Named(ListTableId) ==>
      r.value["page_num"] == pagination.fields["current"] && r.value["page_size"] == pagination.fields["pageSize"]
  {
    var defaults := map[
      "dict_type" := dictType, "dict_label" := dictLabel, "status" := statusSelect,
      "page_num" := Int(1), "page_size" := Int(10)];
    if trigger != Named(ListTableId) then Some(defaults)
    else if HasPageFields(pagination) then
      Some(defaults["page_num" := pagination.fields["current"]]["page_size" := pagination.fields["pageSize"]])
    else None
  }

  /** Whether any of the four inputs holds a truthy value. */
  predicate AnyFired(searchClick: Value, refreshClick: Value, pagination: Value, operations: Value) {
    Truthy(searchClick) || Truthy(refreshClick) || Truthy(pagination) || Truthy(operations)
  }

  /** A search or refresh click reloads from page 1 of 10 with the current
      filters, whatever the table's pagination holds. */
  lemma SearchLoadsFirstPage(trigger: TriggerId, click: Value, pagination: Value,
                             dictType: Value, dictLabel: Value, statusSelect: Value)
    requires trigger == Named(SearchId) || trigger == Named(RefreshId)
    requires Truthy(click)
    ensures trigger == Named(SearchId) ==> AnyFired(click, Null, pagination, Null)
    ensures trigger == Named(RefreshId) ==> AnyFired(Null, click, pagination, Null)
    ensures ListQuery(trigger, pagination, dictType, dictLabel, statusSelect)
      == Some(map["dict_type" := dictType, "dict_label" := dictLabel, "status" := statusSelect,
                  "page_num" := Int(1), "page_size" := Int(10)])
  {
  }

  /** The operation links of a row: edit and delete, each present only with
      its permission (an empty dict otherwise). */
  function RowOperations(sv: Services): Value {
    List([
      if sv.checkPerms("system:dict:edit")
      then Obj(map["content" := Str("修改"), "type" := Str("link"), "icon" := Str("antd-edit")])
      else Obj(map[]),
      if sv.checkPerms("system:dict:remove")
      then Obj(map["content" := Str("删除"), "type" := Str("link"), "icon" := Str("antd-delete")])
      else Obj(map[])
    ])
  }

  /** A row as the table shows it. */
  function DecorateRow(item: map<string, Value>, sv: Services): (r: map<string, Value>)
    requires "dict_code" in item
    ensures r.Keys == item.Keys + DecoratedKeys
    ensures r["key"] == Str(PyStr(item["dict_code"]))
    ensures r["status"] == sv.statusTag(Get(item, "status"))
    ensures r["create_time"] == sv.formatTime(Get(item, "create_time"))
    ensures r["operation"] == RowOperations(sv)
    ensures forall k | k in item && k !in DecoratedKeys :: r[k] == item[k]
  {
    item["status" := sv.statusTag(Get(item, "status"))]
        ["create_time" := sv.formatTime(Get(item, "create_time"))]
        ["key" := Str(PyStr(item["dict_code"]))]
        ["operation" := RowOperations(sv)]
  }

  predicate AllCoded(rows: seq<map<string, Value>>) {
    forall j | 0 <= j < |rows| :: "dict_code" in rows[j]
  }

  /** `get_dict_data_table_data`. The table key (a fresh uuid4 in the source)
      is the parameter `tableKey`. */
  method GetDictDataTableData(
    trigger: TriggerId,
    searchClick: Value, refreshClick: Value, pagination: Value, operations: Value,
    dictType: Value, dictLabel: Value, statusSelect: Value,
    tableKey: string, sv: Services)
    returns (r: Reply<TableOutputs>)
    // reading the table's pagination raised: nothing requested
    ensures ListQuery(trigger, pagination, dictType, dictLabel, statusSelect).None? ==> r == Reply(Raise, [])
    // nothing fired: PreventUpdate, nothing requested
    ensures var q := ListQuery(trigger, pagination, dictType, dictLabel, statusSelect);
      q.Some? && !AnyFired(searchClick, refreshClick, pagination, operations) ==> r == Reply(Prevent, [])
    // otherwise exactly one list request, with the query
    ensures var q := ListQuery(trigger, pagination, dictType, dictLabel, statusSelect);
      q.Some? && AnyFired(searchClick, refreshClick, pagination, operations) ==> r.calls == [ListData(q.value)]
    // the table updates exactly when the request answers and every row has a code
    ensures var q := ListQuery(trigger, pagination, dictType, dictLabel, statusSelect);
      r.outcome.Fire? <==>
        q.Some? && AnyFired(searchClick, refreshClick, pagination, operations)
        && sv.listData(q.value).Ok? && AllCoded(sv.listData(q.value).value.rows)
    // PreventUpdate only when the query was built and nothing fired; every
    // other failure (the list request, a row without a code) raises
    ensures var q := ListQuery(trigger, pagination, dictType, dictLabel, statusSelect);
      !r.outcome.Fire? ==>
        && (r.outcome == Prevent <==> q.Some? && !AnyFired(searchClick, refreshClick, pagination, operations))
        && (r.outcome != Prevent ==> r.outcome == Raise)
    ensures r.outcome.Fire? ==>
      var page := sv.listData(ListQuery(trigger, pagination, dictType, dictLabel, statusSelect).value).value;
      var out := r.outcome.out;
      && |out.data| == |page.rows|
      && (forall j | 0 <= j < |page.rows| :: out.data[j] == DecorateRow(page.rows[j], sv))
      && out.pagination.Keys == PaginationKeys
      && out.pagination["pageSize"] == page.pageSize
      && out.pagination["current"] == page.pageNum
      && out.pagination["total"] == page.total
      && out.pagination["pageSizeOptions"] == List([Int(10), Int(30), Int(50), Int(100)])
      && out.pagination["showSizeChanger"] == Bool(true) && out.pagination["showQuickJumper"] == Bool(true)
      && out.key == tableKey
      && out.selectedRowKeys == Null
  {
    var query := map[
      "dict_type" := dictType, "dict_label" := dictLabel, "status" := statusSelect,
      "page_num" := Int(1), "page_size" := Int(10)];
    if trigger == Named(ListTableId) {
      if !HasPageFields(pagination) {
        return Reply(Raise, []);
      }
      query := query["page_num" := pagination.fields["current"]];
      query := query["page_size" := pagination.fields["pageSize"]];
    }
    assert query == ListQuery(trigger, pagination, dictType, dictLabel, statusSelect).value;
    if !AnyFired(searchClick, refreshClick, pagination, operations) {
      return Reply(Prevent, []);
    }
    var calls := [ListData(query)];
    var info := sv.listData(query);
    if info.Failed? {
      return Reply(Raise, calls);
    }
    var tablePagination := map[
      "pageSize" := info.value.pageSize,
      "current" := info.value.pageNum,
      "showSizeChanger" := Bool(true),
      "pageSizeOptions" := List([Int(10), Int(30), Int(50), Int(100)]),
      "showQuickJumper" := Bool(true),
      "total" := info.value.total];
    var tableData, coded := DecorateRows(info.value.rows, sv);
    if !coded {
      return Reply(Raise, calls);
    }
    r := Reply(Fire(TableOutputs(tableData, tablePagination, tableKey, Null)), calls);
  }

  /** The `for item in table_data` loop: overwrites the status, create_time,
      key and operation of each row in turn; `coded` is false when a row has
      no dict_code (the source's KeyError). */
  method DecorateRows(rows: seq<map<string, Value>>, sv: Services)
    returns (tableData: seq<map<string, Value>>, coded: bool)
    ensures coded <==> AllCoded(rows)
    ensures coded ==> |tableData| == |rows| && forall j | 0 <= j < |rows| :: tableData[j] == DecorateRow(rows[j], sv)
  {
    tableData := rows;
    var i := 0;
    while i < |tableData|
      invariant 0 <= i <= |tableData| == |rows|
      invariant forall j | 0 <= j < i :: "dict_code" in rows[j]
      invariant forall j | 0 <= j < i :: tableData[j] == DecorateRow(rows[j], sv)
      invariant forall j | i <= j < |tableData| :: tableData[j] == rows[j]
    {
      if "dict_code" !in tableData[i] {
        // item['dict_code'] raises KeyError
        assert !AllCoded(rows);
        return tableData, false;
      }
      tableData := tableData[i := DecorateRow(tableData[i], sv)];
      i := i + 1;
    }
    coded := true;
  }

  /** A displayed row's key parses back to its integer code: the edit path
      reads the code of a clicked row with `int(row['key'])`. */
  lemma RowKeyParsesToCode(item: map<string, Value>, sv: Services)
    requires "dict_code" in item && item["dict_code"].Int?
    ensures PyInt(DecorateRow(item, sv)["key"]) == Some(item["dict_code"].i)
  {
    ParseIntDecimalString(item["dict_code"].i);
  }
}
