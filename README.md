# Maintenance tasks and checklists, modelled in Dafny

This project models the core of a facility-maintenance application (a Django
web app). It covers how a maintenance task moves through its statuses
(`scheduled`, `in_progress`, `done`, `cancelled`). It covers how a task's
checklist is copied from a template or added to by hand. It covers how a
batch of answers is recorded and how each answer is rendered. It also covers
the asset list's search filter and the public QR address of an asset.

Modules, one per component:

- `Wrappers`: the `Option` type used for nullable fields and failed lookups.
- `PyStr`: the Python string behaviour the views rely on. That is
  `str.strip()` with Python's white-space set, `str(n)` for ids, ASCII case
  folding and substring search (Django's `icontains`).
- `Models`: the data model of `mainapp/models.py`. It holds the status and
  item-type choice lists and the field defaults. It holds the QR token, its
  printed form and the address built from it. It holds the template items'
  `(order, id)` ordering and the checklist item record.
- `Checklist`: snapshot items copied from a template and ad hoc items. It
  also holds the per-type recording of a submitted answer and
  `_format_task_item_answer`.
- `Lifecycle`: the status machine as functions on a task's
  (status, completion instant, report). These are the explicit update, the
  "start" shortcut and "close task", plus the summary of what the report shows.
- `Tasks`: `Task`, a class whose fields the request handlers update in place.
  Its methods are the task page's actions, the dashboard's start shortcut and
  the task-creation form. Each method is proved against the `Lifecycle` and
  `Checklist` functions.
- `Directory`: the asset list's filter and the lookup of an asset by token.

Inputs are modelled as follows:

- The clock is an argument (`now`, and `generatedAt` for the separate clock
  reading taken when the report is built).
- Form fields are a map from field name to value, read the way
  `request.POST.get(key, default)` reads them. Uploads are a map from field
  name to a stored file name.
- Answer fields are looked up under their literal names
  (`item_<id>_yesno`, ...). `AnswerKeyInjective` proves that no two items and
  no two types share a field.
- Id fields (`site_id`, `template_id`, `asset_id`) arrive already decoded. An
  empty field is `None`.
- Rows of the database are maps from id to value. The next checklist-item id
  (`Task.nextItemId`) is a per-task stand-in for the database's id sequence:
  the ids it hands out are distinct within one task, and ids of different
  tasks are unrelated.
- Python's `Decimal(s)` and `str(Decimal)` are passed in as functions
  (`parseDecimal`, `showDecimal`). `parseDecimal` returning `None` stands for
  `InvalidOperation`.

Behaviour of the code worth noting, which the model keeps:

- `generate_checklist` on an existing task does not check the template's
  site scope (app/mainapp/views.py:354-360). Only task creation drops a
  template of another site (app/mainapp/views.py:502-503).
  `Task.GenerateChecklist` states the copy for every template.
- An asset of another site is not rejected. It is silently replaced by no
  asset (`SiteAsset`).
- A task created directly with status `done` gets no completion instant.
  `CreateTask` states `completedAt.None?` for every new task. The stamping
  rule applies only to `update_task` and "close task".
- "Close task" builds the report before it sets the status to `done`
  (app/mainapp/views.py:414 and 417). The report therefore prints the status
  the task had before closing. `Closed` states `statusShown == st.status`.

## Model

| member | source | states |
|---|---|---|
| `PyStr.Strip` | app/mainapp/views.py:363 | `str.strip()`: the result is the slice of the input between an all-white-space prefix and an all-white-space suffix; it has no white space at either end; it is empty exactly when the input is all white space; an already trimmed string is unchanged |
| `PyStr.NatToString` | app/mainapp/views.py:386 | `str(n)` for an id: a non-empty string of decimal digits without a leading zero |
| `PyStr.NatToStringInjective` | app/mainapp/views.py:386 | `str(id)` in the answer field names: distinct ids print differently (via the round trip `NatToStringRoundTrip`) |
| `PyStr.NatToStringRoundTrip` | app/mainapp/views.py:386 | reading back the digits of `str(n)` gives `n` |
| `PyStr.ContainsIff` | app/mainapp/views.py:457-461 | the substring test behind `icontains` holds exactly when the needle occurs at some position of the text |
| `PyStr.IContains` | app/mainapp/views.py:457-461 | `icontains` holds exactly when the case-folded query occurs at some position of the case-folded field |
| `Models.AssetStatusCodesAreChoices` | mainapp/models.py:15-19 | asset statuses are exactly `active`, `out_of_service`, `disposed`, one code per status |
| `Models.NewAsset` | mainapp/models.py:22-29 | a new asset has status `active` (a listed choice), empty type, serial and vendor, and the generated token |
| `Models.ParseUuid` | app/config/urls.py:15 | the `<uuid:token>` converter accepts a string only if printing the token it yields gives that string back |
| `Models.UuidRoundTrip` | mainapp/models.py:29 | a token printed as 8-4-4-4-12 lower-case hex parses back to the same token |
| `Models.UuidString` | mainapp/models.py:39 | `str(qr_token)` has the 8-4-4-4-12 dashed shape, and without its dashes it is the token's 32 lower-case hex digits |
| `Models.QrUrl` | mainapp/models.py:37-39 | `qr_url` is the base address followed by `/a/`, the 36-character token and `/` |
| `Models.TokenOfUrl` | app/config/urls.py:15 | the token the route `a/<uuid:token>/` extracts from an address is one whose `qr_url` is that address |
| `Models.QrUrlNamesToken` | mainapp/models.py:37-39 | the QR address leads back to its token, so distinct tokens give distinct addresses |
| `Models.ParseTaskStatus` | mainapp/models.py:59-64 | a code is accepted exactly when it is in `STATUS_CHOICES`, and names the status with that code |
| `Models.TaskStatusCodes` | mainapp/models.py:59-64 | every status's code is accepted and names it; its label is the one in `STATUS_CHOICES` |
| `Models.ParseItemType` | mainapp/models.py:89-94 | a code is accepted exactly when it is in `TYPE_CHOICES` (`yesno`, `number`, `text`, `photo`) |
| `Models.ItemTypeCodes` | mainapp/models.py:89-98 | every item type's code is accepted and names that type |
| `Models.OrderedItems` | mainapp/models.py:102-103 | `template.items.all()` yields the template's items (same multiset, same count) sorted by `order`, ties by `id` |
| `Models.TemplateOrderUnique` | mainapp/models.py:102-103 | with distinct ids any two `(order, id)`-sorted arrangements of the same items are equal, so the order is fully determined |
| `Models.NewChecklistItem` | mainapp/models.py:108-122 | a new checklist item keeps its snapshot fields and starts with empty text and no number, yes/no answer or attachment |
| `Checklist.SiteAsset` | app/mainapp/views.py:359 | the chosen asset is kept exactly when it exists and belongs to the task's site, otherwise none |
| `Checklist.Snapshot` | app/mainapp/views.py:153-161 | a snapshot copies the template item's label, type, required flag and unit, links the template item and starts unanswered |
| `Checklist.Snapshots` | app/mainapp/views.py:150-162 | N template items give N snapshots, the k-th copied from the k-th item, numbered consecutively, all with the same asset |
| `Checklist.ItemTypeOrDefault` | app/mainapp/views.py:365-368 | a valid stripped type code is kept, anything else becomes `yesno` |
| `Checklist.AdHocItem` | app/mainapp/views.py:363-380 | nothing is created for an all-white-space label; otherwise an unanswered item with the stripped label, a valid type (`yesno` on invalid input), `required` iff the field is `on`, the stripped unit |
| `Checklist.Get` | app/mainapp/views.py:343 | `request.POST.get(key, default)`: the submitted value when the field is present, otherwise the default |
| `Checklist.ScopeAllows` | app/mainapp/views.py:502 | a global template is allowed at every site, a scoped one only at its own site |
| `Checklist.AnswerKey` | app/mainapp/views.py:386 | an answer field is `item_`, then `str(id)`, then `_` and the type code |
| `Checklist.AnswerKeyInjective` | app/mainapp/views.py:386-405 | the field names `item_<id>_<type>` of different items or different types never coincide |
| `Checklist.YesNoAnswer` | app/mainapp/views.py:386-392 | `yes` is true, `no` is false, any other input clears the answer |
| `Checklist.NumberAnswer` | app/mainapp/views.py:394-401 | an empty (after stripping) input clears the number, otherwise the parse result of the stripped input, cleared on a parse failure |
| `Checklist.Answered` | app/mainapp/views.py:384-408 | the slot the item's type selects is set from that type's field (photo only when an upload is present); the question fields and every other slot are unchanged |
| `Checklist.AnsweredKeepsSlots` | app/mainapp/views.py:384-408 | recording answers never fills a slot other than the one the item's type selects |
| `Checklist.UnitSuffix` | app/mainapp/views.py:176 | the unit is appended after a space only when non-empty |
| `Checklist.HasAttachment` | app/mainapp/views.py:179 | a stored file counts as attached only when there is one and its name is not empty |
| `Checklist.FormatAnswer` | app/mainapp/views.py:166-180 | `SI`/`NO`/`-` for yes/no (each iff the answer is true/false/missing), number plus unit or `-`, `Foto allegata` iff a file is attached, the text or `-`; an unanswered item renders `-` |
| `Checklist.RenderSavedAnswer` | app/mainapp/views.py:384-403 | after recording, the report shows `SI`/`NO`/`-` for the submitted yes/no value, `-` for a blank or unparsable number, the stripped text or `-`, and the old photo rendering without an upload |
| `Lifecycle.InitialStatus` | app/mainapp/views.py:485-488 | a new task's status is the submitted code when valid, otherwise `scheduled` |
| `Lifecycle.NeedsStamp` | app/mainapp/views.py:349 | a new completion instant is due when the task is not done, or when it has none |
| `Lifecycle.StatusUpdated` | app/mainapp/views.py:345-352 | given the checked code, an invalid one (no status) leaves the state unchanged; a valid one becomes the status; entering `done` stamps `now` when not already done or not stamped, otherwise the stamp is kept; the stamp is never cleared |
| `Lifecycle.Started` | app/mainapp/views.py:33-35 | the status becomes `in_progress` iff it was `scheduled` or `in_progress`; any other state is left as is |
| `Lifecycle.Entries` | app/mainapp/views.py:262-274 | the report has one checklist entry per item, in order, with its snapshot label, rendered answer and asset |
| `Lifecycle.Closed` | app/mainapp/views.py:409-421 | close ends with status `done`, a stamp and a report; the stamp is `now` iff the task was not done or not stamped, otherwise unchanged; the report shows the prior status and the new stamp |
| `Lifecycle.StatusUpdateIdempotent` | app/mainapp/views.py:346-352 | repeating an update changes nothing more; a second `done` does not move the stamp |
| `Lifecycle.StartIdempotent` | app/mainapp/views.py:33-35 | starting twice is starting once |
| `Lifecycle.CloseTwiceKeepsCompletion` | app/mainapp/views.py:410-417 | closing a closed task keeps its completion instant (only the report is replaced) |
| `Lifecycle.StepsKeepStamped` | app/mainapp/views.py:346-350 | update, start and close all keep "a done task has a completion instant" |
| `Lifecycle.LeavingDoneKeepsCompletion` | app/mainapp/views.py:346-352 | moving a done task to another valid status keeps its completion instant |
| `Tasks.Task.constructor` | app/mainapp/views.py:490-497 | a new task has the given fields, no completion instant, no report and no checklist items |
| `Tasks.Task.Start` | app/mainapp/views.py:29-36 | the start shortcut changes only `status`, as `Started` says |
| `Tasks.Task.UpdateStatus` | app/mainapp/views.py:342-353 | `update_task` changes only `status` and `completedAt`, as `StatusUpdated` says of `ParseTaskStatus` of the stripped `status` field |
| `Tasks.Task.ApplyStatus` | app/mainapp/views.py:345-352 | the status change once the code is checked: the new lifecycle state is `StatusUpdated` of the old one |
| `Tasks.SnapshotBatch` | app/mainapp/views.py:150-162 | the loop builds exactly `Snapshots` of the ordered template items |
| `Tasks.Task.InstantiateTemplate` | app/mainapp/views.py:149-164 | appends one snapshot per template item in `(order, id)` order behind the unchanged existing items, and keeps the item invariant |
| `Tasks.Task.GenerateChecklist` | app/mainapp/views.py:354-361 | an unknown template is "not found" and changes neither the items nor the next id; any known template, whatever its site, is copied with the asset kept only if it is at the task's site, and the next id advances by its item count |
| `Tasks.Task.AddChecklistItem` | app/mainapp/views.py:362-381 | appends exactly the item `AdHocItem` describes and advances the next id by one, or changes neither for an empty label |
| `Tasks.Task.AppendItem` | app/mainapp/views.py:373-380 | one stored item is appended under the next id, which then advances by one, keeping the item invariant |
| `Tasks.Task.AppendAdHoc` | app/mainapp/views.py:373-380 | from the read fields: nothing for an empty label, otherwise one new unanswered item under the next id, keeping the item invariant |
| `Tasks.Task.SaveAnswers` | app/mainapp/views.py:383-408 | every item becomes `Answered` of its old value; the count and the item invariant are kept |
| `Tasks.Task.Close` | app/mainapp/views.py:409-421 | changes only status, stamp and report, as `Closed` says of the current items |
| `Tasks.Task.SubmitAnswers` | app/mainapp/views.py:382-422 | records all answers, then closes exactly when `close_task` is `1`; otherwise the lifecycle state is unchanged |
| `Tasks.CreateTask` | app/mainapp/views.py:478-507 | no task without a title and a site; an unknown site is "not found"; a new task gets the stripped title and notes, the normalised status, no stamp or report; an unknown template is "not found" after the task exists; items are the template's snapshots only for a global template or one of the task's site |
| `Tasks.OpenTask` | app/mainapp/views.py:490-506 | the created task carries the given fields, no stamp, report or items except the template's snapshots when the template exists and is in scope; "not found" exactly for an unknown template |
| `Directory.AssetMatches` | app/mainapp/views.py:449-462 | an asset matches exactly when the status filter is blank or equals its code, and the query is blank or occurs, ignoring case, in its name, type, serial, site name or vendor; with no filters every asset matches |
| `Directory.SiteNameFindsAsset` | app/mainapp/views.py:460 | a query occurring only in the site's name still finds the asset |
| `Directory.NameFindsAsset` | app/mainapp/views.py:457 | an asset's own (trimmed) name finds it |
| `Directory.FilterAssets` | app/mainapp/views.py:452-462 | the list holds exactly the assets that match, each with its own site's name |
| `Directory.FindByToken` | app/mainapp/views.py:86 | the asset found carries the token; "not found" exactly when no asset has it |
| `Directory.QrUrlFindsAsset` | mainapp/models.py:29 | with unique tokens, an asset's QR address resolves to that asset and no other |

## Left out

- PDF layout (`_build_task_report_pdf`, `asset_label_pdf`) is not modelled: page geometry, fonts, wrapping and pagination. The report is its summary `Lifecycle.Report`. The summary keeps the status shown, the completion instant, the generation instant and one entry per item. It leaves out the site name, title, notes and scheduled time the document also prints.
- QR image encoding (`_qr_png_bytes`) is a library call and is not modelled. Only the address it encodes is modelled.
- Date parsing and time zones (`_parse_datetime_local`, `_format_datetime_for_pdf`) are library calls. The scheduled time is an argument.
- Random token generation (`uuid.uuid4`) is not modelled. Token uniqueness is the storage constraint `TokensUnique`, taken as a precondition. No operation of the core changes a token (the field is not editable).
- Python's `Decimal` parsing and printing are parameters. Non-finite values (`NaN`, `Infinity`) and the column's 12-digit, 3-place limit are not modelled.
- A non-numeric id field raises a server error in the ORM. That is not modelled: id fields arrive decoded.
- A submitted field sent several times is read as its last value. The form is modelled as a map, one value per field.
- Collation is not modelled. `icontains` folding is ASCII only here, and the database's collation may fold more letters. Under a case-insensitive (`_ci`) MySQL collation the `status=` equality of the asset list also ignores case; `Directory.AssetMatches` compares status codes exactly.
- The order of the asset list (`order_by("name")`) is not modelled.
- Directory.FilterAssets: states which assets appear, not their order, because ordering by name follows the database's collation.
- The task list's filter, the dashboard and site pages' counts, `asset_by_token`'s related-task lists and `task_report_pdf` are left out: they are read-only database queries and aggregates.
- Maintenance plans (`MaintenancePlan`, its frequency choices) are left out: no modelled operation reads or writes them.
- Fields the core never reads (`purchase_date`, `qr_image`, `created_at`, `created_by`, `plan`) are left out.
- The item order in `save_answers` is the database's unspecified order. It is taken as creation order.
- `update_fields` writes only the named columns. The model expresses this by the `modifies` frames of the `Task` methods.
- Tasks.Task.AddChecklistItem: does not model the column widths of `label_snapshot` (220 characters) and `unit` (20 characters). The database rejects a longer stripped label or unit, the request fails and no item is added; the model appends the item.
- Tasks.CreateTask: does not model the 160-character width of the `title` column. The database rejects a longer title, the request fails and no task is created; the model creates the task.
- `Task.Valid()` assumes every stored item holds only the answer slot its type selects, which is what the views write. Items edited through the admin inlines may hold any mix of type and values; for those, `SaveAnswers` and `SubmitAnswers` promise nothing.
- Authentication, redirects, rendering, URL routing, admin screens, settings and the MySQL driver shim are left out.
- Concurrent requests are left out: each request is one sequential call.
- A report file the storage renames on reuse is not modelled beyond its name: the stored name is a parameter of "close task".
