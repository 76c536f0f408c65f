/** What a callback of the dictionary-data screen sees and produces: the id of
    the input that fired it, the values it returns (or leaves unchanged), and
    the calls it makes to collaborators outside the screen (the remote
    dictionary-data API, the label cache and the notification service). */
module Callback {
  import opened Values

  /** `ctx.triggered_id`: a plain component id, or a pattern-matching id
      `{'type': kind, 'index': index}`. */
  datatype TriggerId =
    | Named(id: string)
    | Indexed(kind: string, index: string)

  const SearchId := "dict_data-search"
  const RefreshId := "dict_data-refresh"
  const ListTableId := "dict_data-list-table"
  const OperationsStoreId := "dict_data-operations-store"
  const FormStoreId := "dict_data-form-store"
  const FormId := "dict_data-form"
  const OperationButtonKind := "dict_data-operation-button"

  /** The add, edit and delete buttons above the table. */
  function OperationButton(index: string): TriggerId {
    Indexed(OperationButtonKind, index)
  }

  /** One output of a callback: a new value, or `no_update`. */
  datatype Field<T> = Set(value: T) | Keep

  /** How a callback ends: it returns outputs, returns `no_update` for all of
      them, raises `PreventUpdate`, or raises any other exception (nothing is
      updated). */
  datatype Outcome<T> = Fire(out: T) | NoUpdate | Prevent | Raise

  /** A call into a collaborator outside the screen, in the order made. */
  datatype Call =
    | ListData(query: map<string, Value>)
    | GetData(dictCode: int)
    | AddData(form: map<string, Value>)
    | UpdateData(form: map<string, Value>)
    | DelData(dictCodes: Value)
    | ExportData(params: map<string, Value>)
    | CacheDelete(key: Value)
    | NotifySuccess(message: string)

  /** A callback's outcome together with the calls it made on the way. */
  datatype Reply<T> = Reply(outcome: Outcome<T>, calls: seq<Call>)

  /** The answer of a remote request: its payload, or an exception. */
  datatype ApiResult<T> = Ok(value: T) | Failed

  /** The fields of a list response the table callback reads. */
  datatype ListPage = ListPage(rows: seq<map<string, Value>>, pageSize: Value, pageNum: Value, total: Value)

  /** The collaborators, as functions whose behaviour the model leaves open. */
  datatype Services = Services(
    // DictDataApi.list_data(query)
    listData: map<string, Value> -> ApiResult<ListPage>,
    // DictDataApi.get_data(dict_code)['data']
    getData: int -> ApiResult<Value>,
    // whether add_data, update_data or del_data returns normally
    accepts: Call -> bool,
    // DictDataApi.export_data(params).content
    exportData: map<string, Value> -> ApiResult<seq<bv8>>,
    // DictManager.get_dict_tag(dict_type='sys_normal_disable', dict_value=v)
    statusTag: Value -> Value,
    // TimeFormatUtil.format_time(v)
    formatTime: Value -> Value,
    // PermissionManager.check_perms(perm)
    checkPerms: string -> bool,
    // ValidateUtil.not_empty(v)
    notEmpty: Value -> bool
  )
}
