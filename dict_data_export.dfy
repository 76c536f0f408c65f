/** Exporting dictionary data: the export request with the current filters,
    and the follow-up callback that clears the download once it was offered. */
module DictDataExport {
  import opened Values
  import opened Callback
  import DictDataTable

  /** A file offered for download (`dcc.send_bytes`). */
  datatype Download = Download(content: seq<bv8>, filename: string)

  datatype ExportOutputs = ExportOutputs(download: Download, completeJudge: Value)

  /** The export request's parameters: the three filters, with no page. */
  function ExportParams(dictType: Value, dictLabel: Value, statusSelect: Value): (p: map<string, Value>)
    ensures p.Keys == {"dict_type", "dict_label", "status"}
    ensures p["dict_type"] == dictType && p["dict_label"] == dictLabel && p["status"] == statusSelect
  {
    map["dict_type" := dictType, "dict_label" := dictLabel, "status" := statusSelect]
  }

  /** `export_dict_data_list`. The time stamp of the file name and the value of
      `time.time()` are the parameters `stamp` and `now`. */
  function ExportDictDataList(exportClick: Value, dictType: Value, dictLabel: Value, statusSelect: Value,
                              stamp: string, now: Value, sv: Services): (r: Reply<ExportOutputs>)
    ensures !Truthy(exportClick) ==> r == Reply(Prevent, [])
    ensures Truthy(exportClick) ==>
      var params := ExportParams(dictType, dictLabel, statusSelect);
      && |r.calls| > 0 && r.calls[0] == ExportData(params)
      && (r.outcome.Fire? <==> sv.exportData(params).Ok?)
      && (!r.outcome.Fire? ==> r == Reply(Raise, [ExportData(params)]))
      && (r.outcome.Fire? ==>
            && r.calls == [ExportData(params), NotifySuccess("导出成功")]
            && r.outcome.out.download == Download(sv.exportData(params).value, "字典数据信息_" + stamp + ".xlsx")
            && r.outcome.out.completeJudge == Obj(map["timestamp" := now]))
  {
    if !Truthy(exportClick) then Reply(Prevent, [])
    else
      var params := ExportParams(dictType, dictLabel, statusSelect);
      match sv.exportData(params)
      case Failed => Reply(Raise, [ExportData(params)])
      case Ok(content) =>
        Reply(Fire(ExportOutputs(Download(content, "字典数据信息_" + stamp + ".xlsx"), Obj(map["timestamp" := now]))),
              [ExportData(params), NotifySuccess("导出成功")])
  }

  /** `reset_dict_data_export_status`: clears the download once the export
      signalled completion. */
  function ResetExportStatus(data: Value): (r: Outcome<Value>)
    ensures r.Fire? <==> Truthy(data)
    ensures r.Fire? ==> r.out == Null
    ensures !r.Fire? ==> r == Prevent
  {
    if Truthy(data) then Fire(Null) else Prevent
  }

  /** An export asks for the whole filtered set: the list query of any page,
      without its page. */
  lemma ExportIgnoresPage(trigger: TriggerId, pagination: Value, dictType: Value, dictLabel: Value, statusSelect: Value)
    requires DictDataTable.ListQuery(trigger, pagination, dictType, dictLabel, statusSelect).Some?
    ensures ExportParams(dictType, dictLabel, statusSelect)
      == DictDataTable.ListQuery(trigger, pagination, dictType, dictLabel, statusSelect).value - {"page_num", "page_size"}
  {
  }

  /** A completed export always clears its download afterwards. */
  lemma ExportThenReset(exportClick: Value, dictType: Value, dictLabel: Value, statusSelect: Value,
                        stamp: string, now: Value, sv: Services)
    requires ExportDictDataList(exportClick, dictType, dictLabel, statusSelect, stamp, now, sv).outcome.Fire?
    ensures ResetExportStatus(ExportDictDataList(exportClick, dictType, dictLabel, statusSelect, stamp, now, sv)
                                .outcome.out.completeJudge) == Fire(Null)
  {
    var judge := map["timestamp" := now];
    assert "timestamp" in judge;
  }
}
