# Dictionary-data screen: callback decisions

This project models the event-decision logic of the dictionary-data admin
screen (`callbacks/system_c/dict_c/dict_data_c.py`). Each callback of that
screen receives the id of the input that fired it and the current screen
state. It then does one of four things:

- it returns new output values;
- it returns `no_update`;
- it raises `PreventUpdate`;
- it raises another exception, and nothing is updated.

On the way it may call the remote dictionary-data API, the label cache and
the notification service.

The model keeps that shape:

- `Values.Value` is the JSON-like data of Python dicts and JavaScript objects.
  It comes with Python and JavaScript truthiness and with `str()`, `int()`,
  `','.join` and `list(set(...))`.
- `Callback.Outcome` is the four endings. `Callback.Reply` pairs an outcome with
  the calls made, in order (`Callback.Call`).
- `Callback.Services` bundles the collaborators as functions whose behaviour
  is left open:
  - the API's list, get, add, update, delete and export;
  - the status tag lookup, time formatting and permission check;
  - `ValidateUtil.not_empty`.

  The model proves which calls happen and with which arguments, not what the
  calls do.

Modules:

- `DictDataTable`: the table refresh (`get_dict_data_table_data`). It is a
  method: the query is built and then updated, and a loop rewrites each row.
- `DictDataClientside`: the browser-side callbacks. These are the reset, the
  search-form toggle, the edit and delete button enablement, and the two-way
  binding of form store and form. The binding uses a `StoreData` object whose
  `Assign` method is `Object.assign`, done key by key.
- `DictDataModal`: opening the add/edit modal and confirming it, including the
  required-field validator.
- `DictDataDelete`: the delete confirmation dialog and the delete request.
- `DictDataExport`: the export request and the clearing of the download.

Three behaviours of the code a reader may not expect:

- The reset button writes `{'type': 'reset'}` into the operations store. That
  store is an input of the table callback, so a reset does reload the table,
  with the label and status filters cleared (`ResetRefreshesWithClearedFilters`).
- On a confirmed delete, the label cache is invalidated once. The key is the
  comma-joined string of the affected types, not each type
  (`DictDataDelete.DeleteConfirm`). `TTLCacheManager` is not part of this model,
  so whether it splits that key is left open.
- Neither the modal nor the delete dialog checks the selection size: only the
  buttons' `disabled` flags do. Opening the edit modal with two keys selected
  raises, because `int('a,b')` raises (`EditButtonManyKeysRaises`).

## Model

| member | source | states |
|---|---|---|
| DictDataTable.ListQuery | callbacks/system_c/dict_c/dict_data_c.py:56-70 | the query always carries the type, label and status filters; its page is 1 of 10 unless the table fired, when it is `pagination['current']`/`['pageSize']`; reading a missing pagination raises |
| DictDataTable.SearchLoadsFirstPage | callbacks/system_c/dict_c/dict_data_c.py:56-71 | a truthy search or refresh click fires the reload, and its query is the current filters on page 1 of 10 whatever the table's pagination holds |
| DictDataTable.GetDictDataTableData | callbacks/system_c/dict_c/dict_data_c.py:43-106 | an unreadable table pagination raises before anything else; nothing fired and the pagination readable ⇒ PreventUpdate and no request; a failed list request or a row without `dict_code` raises; otherwise exactly one list request with the query; the table updates exactly when the request answers and every row has a code; rows are the decorated response rows in order; pagination copies page size, page number and total with size options [10,30,50,100], the size changer and quick jumper on; the selection is reset to None |
| DictDataTable.DecorateRows | callbacks/system_c/dict_c/dict_data_c.py:82-97 | the row loop succeeds exactly when every row has a `dict_code`, and then yields each row decorated, in order |
| DictDataTable.DecorateRow | callbacks/system_c/dict_c/dict_data_c.py:82-97 | a row keeps its other fields and gets `key == str(dict_code)`, the status tag, the formatted create time and edit/delete links gated by permission |
| DictDataTable.RowKeyParsesToCode | callbacks/system_c/dict_c/dict_data_c.py:89 | the key a row is given parses back with `int()` to the row's integer code |
| Values.ParseIntDecimalString | callbacks/system_c/dict_c/dict_data_c.py:298-300 | `int(str(n)) == n` for every integer |
| Values.SplitJoin | callbacks/system_c/dict_c/dict_data_c.py:446-448 | a ','-joined list splits back into the list when no part contains ',' |
| Values.Distinct | callbacks/system_c/dict_c/dict_data_c.py:450 | `list(set(xs))` holds exactly the elements of xs, each once |
| DictDataClientside.ResetSearch | callbacks/system_c/dict_c/dict_data_c.py:110-126 | a click clears the label and status filters and posts `{'type': 'reset'}`; no click leaves everything unchanged |
| DictDataClientside.ResetRefreshesWithClearedFilters | callbacks/system_c/dict_c/dict_data_c.py:56-72 | the reset signal makes the table callback fire with label and status None on page 1 of 10 |
| DictDataClientside.HideSearch | callbacks/system_c/dict_c/dict_data_c.py:130-149 | a click flips `hidden`; the tooltip reads '显示搜索' exactly when the form is now hidden |
| DictDataClientside.HideSearchTwice | callbacks/system_c/dict_c/dict_data_c.py:132-139 | two clicks restore the form's visibility |
| DictDataClientside.EditButtonDisabled | callbacks/system_c/dict_c/dict_data_c.py:153-169 | edit is enabled iff exactly one row key is selected; without an output list it aborts |
| DictDataClientside.DeleteButtonDisabled | callbacks/system_c/dict_c/dict_data_c.py:173-191 | delete is enabled iff at least one row key is selected |
| DictDataClientside.EditEnabledImpliesDeleteEnabled | callbacks/system_c/dict_c/dict_data_c.py:158-182 | edit enabled ⇒ delete enabled; a null selection disables both |
| DictDataClientside.Assigned | callbacks/system_c/dict_c/dict_data_c.py:203 | after the merge every form key holds the form's value and every other store key is kept |
| DictDataClientside.AssignedIdempotent | callbacks/system_c/dict_c/dict_data_c.py:203 | merging the same form twice equals merging it once |
| DictDataClientside.StoreData.Assign | callbacks/system_c/dict_c/dict_data_c.py:203 | the in-place key-by-key merge leaves the store equal to `Assigned` of its old entries |
| DictDataClientside.BindForm | callbacks/system_c/dict_c/dict_data_c.py:195-218 | a store change is copied to the form unchanged; a form change merges into the store and is written back; a null store raises; any other trigger aborts |
| DictDataModal.AddEditModal | callbacks/system_c/dict_c/dict_data_c.py:252-312 | add opens with no request, the blank template (filter type, sort 0, list class 'default', status NORMAL, other fields None), validation cleared and type add; edit (button or '修改' link) makes one fetch of the selected or clicked code and opens with the record and type edit; anything else aborts |
| DictDataModal.EditButtonFetchesSelectedCode | callbacks/system_c/dict_c/dict_data_c.py:294-301 | edit with the single key `str(n)` selected fetches code n |
| DictDataModal.EditButtonManyKeysRaises | callbacks/system_c/dict_c/dict_data_c.py:298 | with two or more keys selected the edit path raises and fetches nothing |
| DictDataModal.RowEditFetchesRowCode | callbacks/system_c/dict_c/dict_data_c.py:299-301 | the '修改' link of a row the table shows fetches that row's code |
| DictDataModal.LabelMap | callbacks/system_c/dict_c/dict_data_c.py:348-350 | the label map is keyed by exactly the required fields' names |
| DictDataModal.ByLabel | callbacks/system_c/dict_c/dict_data_c.py:391-402 | the status and help dicts are keyed by exactly the required fields' labels |
| DictDataModal.ByLabelAt | callbacks/system_c/dict_c/dict_data_c.py:391-402 | with distinct labels each field's label maps to that field's own entry |
| DictDataModal.Confirm | callbacks/system_c/dict_c/dict_data_c.py:340-407 | no click aborts; a required field empty ⇒ no request, both dicts returned, modal and operations unchanged; all present ⇒ add calls add only, edit calls update only, each then invalidates the type's cache, notifies, closes the modal, clears validation and posts `{'type': add/edit}`; another modal type leaves modal and operations unchanged |
| DictDataModal.ConfirmReportsEachEmptyField | callbacks/system_c/dict_c/dict_data_c.py:390-405 | each required label maps to 'error' and to '<label>不能为空!' exactly when its field is empty, and to None otherwise |
| DictDataModal.ConfirmFlagsSomeField | callbacks/system_c/dict_c/dict_data_c.py:390-405 | with distinct labels, a rejected submit flags at least one field 'error' |
| DictDataDelete.DeleteModal | callbacks/system_c/dict_c/dict_data_c.py:427-465 | from the selection: codes ','-joined in order, distinct types ','-joined, dialog shown with the codes in its message; from a '删除' link: that row's key and type; otherwise abort; the `no_update` branch is never taken |
| DictDataDelete.DeleteTypesDistinct | callbacks/system_c/dict_c/dict_data_c.py:449-451 | the joined types are exactly the selected rows' types, none twice |
| DictDataDelete.DeleteConfirm | callbacks/system_c/dict_c/dict_data_c.py:474-487 | a confirm makes exactly one delete request, with the stored codes; on success it invalidates the stored types' cache entry, notifies and posts `{'type': 'delete'}` |
| DictDataDelete.DeleteSelectionFlow | callbacks/system_c/dict_c/dict_data_c.py:446-485 | deleting a selection shows a dialog whose codes split back into each row's code in order; confirming it issues one delete with that joined string |
| DictDataExport.ExportParams | callbacks/system_c/dict_c/dict_data_c.py:509-513 | the export parameters are the three filters and nothing else |
| DictDataExport.ExportDictDataList | callbacks/system_c/dict_c/dict_data_c.py:504-526 | no click aborts; a click makes one export request with the filters, and on success offers the payload as '字典数据信息_<stamp>.xlsx' and posts a completion mark |
| DictDataExport.ResetExportStatus | callbacks/system_c/dict_c/dict_data_c.py:534-542 | a truthy completion mark clears the download; otherwise abort |
| DictDataExport.ExportIgnoresPage | callbacks/system_c/dict_c/dict_data_c.py:56-62 | the export parameters are the list query of any page minus its page number and size |
| DictDataExport.ExportThenReset | callbacks/system_c/dict_c/dict_data_c.py:523-540 | a completed export's mark always makes the reset clear the download |

## Left out

- The remote API (`DictDataApi` list, get, add, update, delete, export) is a network client. Its answers are the open functions of `Callback.Services`.
- The list response is taken to carry `rows`, `page_size`, `page_num` and `total`. A response missing one of them is not modelled.
- `DictManager.get_dict_tag`, `TimeFormatUtil.format_time`, `PermissionManager.check_perms` and `ValidateUtil.not_empty` are not part of this model. They are open functions.
- `MessageManager.success` and `TTLCacheManager.delete` are recorded as calls only.
- `uuid.uuid4()`, `time.strftime(...)` and `time.time()` become the parameters `tableKey`, `stamp` and `now`.
- The `time.sleep(0.5)` before the export reset, and the `running=` loading flags, are framework timing and UI state. They are not modelled.
- `dcc.send_bytes` is modelled as the `Download` record of bytes and file name. No file is produced.
- `config/env.py` is settings plumbing and is not part of this model.
- `SysNormalDisableConstant.NORMAL` lives in `config/constant.py`, which is not part of this model. It is the parameter `normal`.
- `ctx.triggered_id` becomes the `trigger` parameter.
- `callback_context.outputs_list` becomes the `outputsList` flag.
- `ctx.states_list[-1]` is the `required` list of field names and labels.
- Values.PyStr: `str()` of a list or dict (Python's repr, with dict insertion order) is not modelled. Such values render as a fixed marker.
- Values.ParseInt: `int()` of text accepts only an optional sign and ASCII digits. Surrounding whitespace, underscores and other Unicode digits are not modelled.
- Values.Distinct: Python's set iteration order is arbitrary. The model keeps each type's first occurrence, so `DeleteModal` fixes the order in which the distinct types are joined.
- DictDataModal.Confirm: a form value that is not a dict always raises. In Python a list form with no required fields would pass `.copy()`.
- DictDataModal.ConfirmReportsEachEmptyField: stated for required fields with distinct names and distinct labels. The dict comprehension is keyed by label, so with shared labels a later field's entry overwrites an earlier one.
- DictDataModal.ConfirmFlagsSomeField: stated only when the required fields have distinct labels. When two required fields share a label, the code can reject the submit without flagging any field: with fields `a` and `b` both labelled `L` and only `b` filled, the later entry `L: None` overwrites the earlier error.
- DictDataModal.AddEditModal: the selected row keys are taken to be a list, or null. Python would also join a string selection (`int(','.join("7"))` is 7); such a selection raises here. The table's selection is always a list or null.
- DictDataDelete.DeleteModal: the selected rows are taken to be a list. Python would also iterate a dict (an empty dict gives an empty dialog); such a selection raises here. The table's selection is always a list or null.
- DictDataClientside.EditButtonDisabled: `.length` of a selection that is a string is not modelled; a string selection disables edit here. The table's selection is an array or null.
- DictDataClientside.DeleteButtonDisabled: likewise, in JavaScript `"ab".length > 0` would enable delete; here a string selection disables it. The table's selection is an array or null.
- DictDataClientside.BindForm: the store data is taken to be an object or null. `Object.assign` from a string or array source, which copies its characters or elements under their index keys, is not modelled: such a source copies nothing here. A form's values are an object or null.
- That a page holds at most `page_size` rows is a property of the API's answer, not of this screen, so it is not modelled.
