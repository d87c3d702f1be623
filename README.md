# Task and sale page controllers: the rules under the glue

This project models, in Dafny, the logic of the two page controllers of an
administrative web front end: the task page (`js/pages/tareas.js`) and the
sales page (`js/pages/ventas.js`). Most of those files are DOM, network and
modal glue. Under it sit a few small rule sets, and those are what the model
states and proves:

- the task list loader (`loadPage`). It fetches either the restricted
  "operario" user's whole list (`id_rol === 4`) or one server page. It then
  filters by status and by a case-insensitive search, counts the pages,
  slices the page shown (restricted role only) and updates the page state
  (`cachedTareas`, `currentPage`, `totalPages`);
- the pagination control (`renderPagination`, `handlePaginationClick`). It
  has a previous link, a window of at most five page links around the current
  page and a next link. A click loads the page its `data-page` names;
- the look-up of a task in the page cache for the edit form
  (`openEditModalFromCache`);
- the CSV export of the page cache (`exportToCsv`);
- the sale status switch (`handleStatusSwitch`). It is a one-way,
  two-state machine, active to cancelled, with a confirmation step and a
  revert when the call fails;
- how a sale row shows its status (`createVentaRow`) and the three outcomes
  of loading the sales table (`init`).

Files:

- `js_semantics.dfy` (module `JsSemantics`): the JavaScript built-ins the
  pages rely on: null/undefined as `Option`, an awaited call that may throw
  as `Call`, `slice` with negative bounds, `filter`, `toLowerCase`,
  `includes`, `join`, `${n}` for an integer and `parseInt(s, 10)`.
- `tareas_list.dfy` (module `TareasList`): the filters, both page counts,
  the page slice, the reconciliation of one successful load and the cache
  look-up.
- `tareas_pagination.dfy` (module `TareasPagination`): the pagination
  control as a specification function, the loop that builds it, and the
  click rule.
- `tareas_csv.dfy` (module `TareasCsv`): the export and a reader for quoted
  records, following rules 5 to 7 of section 2 of RFC 4180. The reader is
  used to state that the export's quoting round-trips.
- `tareas_page.dfy` (module `TareasPage`): class `PageState`, holding the
  page's module-level variables, and its `LoadPage` method.
- `ventas.dfy` (module `Ventas`): row status, table load (class
  `VentasTable`), and the status switch: a decision function plus class
  `StatusSwitch`, whose `checked` field changes in place.

Inputs that are not code are parameters:

- the session user (`Option<User>`, `None` when absent);
- whether the table element exists;
- the raw filter inputs;
- each service's answer (`Call<T>`: a value, or a thrown error);
- the user's answer to the confirmation dialog.

Two behaviours of the code are worth knowing, and the model keeps both:

- Page clicks have no range guard. The click handler refuses only a
  `data-page` that does not parse as a number (js/pages/tareas.js:205-206).
  So the model's `ClickTarget` has no range guard either. Every link targets
  a page in range whenever the current page is in range (`TargetsInRange`).
  Past the last page by more than one, the previous link is enabled and
  targets a page that is still out of range: on page 3 of 1 it points to
  page 2 (`PrevLinkPastLastPage`).
- `currentPage` changes even when a load fails. It is assigned before the
  fetch (js/pages/tareas.js:58), so it changes on every path. When the
  service call itself fails, only `cachedTareas` and `totalPages` keep
  their old values (`PageState.LoadPage`).

## Model

| member | source | states |
|---|---|---|
| `JsSemantics.Slice` | js/pages/tareas.js:127-128 | `slice` never yields more than the list and only yields its elements; with non-negative bounds it is the sub-range clamped to the list |
| `JsSemantics.Filter` | js/pages/tareas.js:115-121 | `filter` keeps each element that satisfies the predicate as often as it occurs and drops every other one, and keeps the original order (the result is a subsequence) |
| `JsSemantics.FilterMembers` | js/pages/tareas.js:115-121 | the members of a filtered list are exactly the input's members that satisfy the predicate |
| `JsSemantics.ToLower` | js/pages/tareas.js:81 | lower-casing keeps the length, leaves no upper-case letter, turns each A-Z into its lower-case letter and keeps every other character in place |
| `JsSemantics.ToLowerIdempotent` | js/pages/tareas.js:81 | lower-casing an already lower-cased text changes nothing |
| `JsSemantics.IncludesToLower` | js/pages/tareas.js:119-120 | text contained in a description is still contained once both are lower-cased |
| `JsSemantics.ParseInt` | js/pages/tareas.js:205-206 | `parseInt(s, 10)` is NaN exactly when, after leading white space and an optional sign, no decimal digit follows |
| `JsSemantics.ParseIntRoundTrip` | js/pages/tareas.js:157 | parsing the text `${n}` writes for any integer gives back that integer |
| `TareasList.FilterByEstado` | js/pages/tareas.js:116-118 | the status filter keeps exactly the tasks whose `estado` equals the selected value, in order; it keeps everything for `"all"` or an empty value |
| `TareasList.SearchFilter` | js/pages/tareas.js:119-121 | the search filter keeps exactly the tasks whose lower-cased description contains the query, in order; an empty query keeps everything |
| `TareasList.ApplyFilters` | js/pages/tareas.js:114-121 | both filters together keep exactly the tasks passing both, in original order, with the query lower-cased first; `"all"` with an empty search is the identity |
| `TareasList.SearchFindsTypedText` | js/pages/tareas.js:119-121 | the search ignores case: a task of the selected status is kept when its description contains some text that differs from the query only in letter case |
| `TareasList.UpperCaseQueryFindsTask` | js/pages/tareas.js:119-121 | the query "HOLA" keeps a task described "Hola mundo" |
| `TareasList.FilteredMembers` | js/pages/tareas.js:114-121 | a task is in the filtered list iff it is in the fetched list and passes both filters |
| `TareasList.CeilPages` | js/pages/tareas.js:126 | `Math.ceil(a / 10)` is the least q with a <= 10q |
| `TareasList.ClientTotalPages` | js/pages/tareas.js:126 | the restricted role's page count is at least 1, is 1 for up to 10 tasks, and otherwise is the least count of 10-task pages that holds them all |
| `TareasList.ServerTotalPages` | js/pages/tareas.js:130 | other roles take the server's `total_pages` when it is truthy; otherwise at least one page, enough 10-task pages for `total_tareas` (or for the filtered length when that is falsy) |
| `TareasList.ClientPage` | js/pages/tareas.js:127-128 | the restricted role's page shows at most 10 filtered tasks; for page >= 1 it is the clamped range [(page-1)*10, page*10) |
| `TareasList.PagesUpToIsPrefix` | js/pages/tareas.js:125-128 | pages 1..k concatenated are the first min(10k, n) filtered tasks |
| `TareasList.PagesPartitionFiltered` | js/pages/tareas.js:125-128 | pages 1..totalPages concatenated are exactly the filtered list, so each task is shown on one page, once |
| `TareasList.PageBeyondLastIsEmpty` | js/pages/tareas.js:125-128 | a page past the last shows no task |
| `TareasList.Reconcile` | js/pages/tareas.js:111-131 | after a successful load the cache is the fetched list before filtering; every shown task is cached. Restricted role: the client page count and the client slice. Other roles: the whole filtered server page, with the server-derived page count |
| `TareasList.RestrictedLoadBounds` | js/pages/tareas.js:125-128 | for the restricted role the page count is at least 1, at most 10 rows are shown, and none for a page beyond the last |
| `TareasList.FindById` | js/pages/tareas.js:289-294 | the cache look-up fails exactly when no cached task has the identifier; otherwise it returns a cached task with that identifier |
| `TareasList.FindByIdIsFirst` | js/pages/tareas.js:290 | the look-up returns the first cached task carrying the identifier |
| `TareasList.EditTarget` | js/pages/tareas.js:194-199 | an edit click finds nothing when the button's `data-id` is not a number; otherwise it finds a cached task with the parsed identifier, and nothing exactly when no cached task has it |
| `TareasList.EditButtonFindsCachedTask` | js/pages/tareas.js:50 | the edit button of any cached task (`data-id="${id_tarea}"`) finds a task with that identifier |
| `TareasPagination.PaginationItems` | js/pages/tareas.js:150-173 | the control has the previous link, one link per page of the window and the next link |
| `TareasPagination.RenderPagination` | js/pages/tareas.js:150-173 | the loop that appends links builds exactly the specified control |
| `TareasPagination.WindowShape` | js/pages/tareas.js:164-169 | at most 5 numbered links, consecutive and ascending from max(1, page-2), each in [1, pages], enabled, active iff it is the current page |
| `TareasPagination.WindowEmptyIff` | js/pages/tareas.js:165-169 | the window is empty iff pages < 1, page > pages + 2 or page < -1 |
| `TareasPagination.ExactlyOneActive` | js/pages/tareas.js:167-169 | exactly one link is active, the current page's, when 1 <= page <= pages; none otherwise |
| `TareasPagination.PrevNextLinks` | js/pages/tareas.js:161-172 | both arrows are always rendered: previous targets max(1, page-1), disabled iff page <= 1; next targets min(pages, page+1), disabled iff page >= pages |
| `TareasPagination.PrevLinkPastLastPage` | js/pages/tareas.js:162 | past the last page by more than one, the previous link is enabled and targets a page still past the last (page 3 of 1: page 2) |
| `TareasPagination.TargetsInRange` | js/pages/tareas.js:161-172 | when the current page is in [1, pages], every link targets a page in [1, pages] |
| `TareasPagination.ClickTarget` | js/pages/tareas.js:201-207 | a click outside a page link, or on one whose `data-page` is not a number, loads nothing; any other click loads the parsed page, with no range check |
| `TareasPagination.ClickLoadsRenderedTarget` | js/pages/tareas.js:155-158 | clicking any rendered link loads exactly the page it targets |
| `TareasCsv.Keys` | js/pages/tareas.js:313 | the header has one key per field of the first record, in order |
| `TareasCsv.Lookup` | js/pages/tareas.js:317 | a record's value for a key is that of its first field with the key, and missing when no field has it |
| `TareasCsv.Escape` | js/pages/tareas.js:318 | escaping never shortens the text |
| `TareasCsv.CsvLines` | js/pages/tareas.js:313-321 | N records give N+1 lines: the unquoted comma-joined header, then each record's values under the header keys, quoted and comma-joined |
| `TareasCsv.ExportCsv` | js/pages/tareas.js:311-321 | no output exactly when the row list is missing or empty |
| `TareasCsv.EscapeRoundTrip` | js/pages/tareas.js:318-319 | reading an escaped text up to its closing quote gives back the text, when no quote follows |
| `TareasCsv.QuoteRoundTrip` | js/pages/tareas.js:319 | a quoted field reads back as its original text |
| `TareasCsv.QuotedLineRoundTrip` | js/pages/tareas.js:316-320 | a line of quoted fields reads back as the same list of texts |
| `TareasCsv.QuotedTableRoundTrip` | js/pages/tareas.js:314-321 | CRLF-joined quoted lines read back as the same table |
| `TareasCsv.ExportRoundTrip` | js/pages/tareas.js:311-321 | the export is the header line, CRLF, then text that reads back as one record per row holding that row's values (missing ones empty) in header order |
| `TareasCsv.ExportTareasRoundTrip` | js/pages/tareas.js:352-355 | exporting the cache gives nothing for an empty cache; otherwise the six task keys as header and, read back, each cached task's fields with a null end date as empty text |
| `TareasPage.DateParam` | js/pages/tareas.js:79-80 | an empty date input sends no parameter; any other value is sent as it is |
| `TareasPage.RequestFor` | js/pages/tareas.js:86-105 | the restricted role requests its own user's list; every other role requests the given page with page size 10 and the date filters, an empty date input sending none |
| `TareasPage.PageState.constructor` | js/pages/tareas.js:7-10 | the page starts with an empty cache on page 1 of 1 |
| `TareasPage.PageState.LoadPage` | js/pages/tareas.js:57-147 | `currentPage` becomes the requested page on every path. On success: cache, page count, rows or "no results", and a pagination control as reconciled. With no table, no user or a failed call: cache and page count unchanged, no control rendered |
| `TareasPage.ShownRowsAreEditable` | js/pages/tareas.js:133-136 | every row a load shows can be opened for editing from the cache that load left |
| `TareasPage.EmptyServerPageScenario` | js/pages/tareas.js:108-139 | a privileged load of `{tareas: [], total_tareas: 0, total_pages: 1}` on page 1 shows no rows and a control with page 1 only, active, both arrows disabled |
| `Ventas.CreateVentaRow` | js/pages/ventas.js:9-26 | a row's switch is checked, with badge "Activo", iff the sale's status is truthy; otherwise unchecked with badge "Inactivo" |
| `Ventas.TableFor` | js/pages/ventas.js:48-59 | an error row iff the call throws; "no results" iff the list is empty or missing; otherwise one row per sale, in order |
| `Ventas.VentasTable.Init` | js/pages/ventas.js:41-59 | without a table nothing changes; otherwise the table ends showing the load's outcome |
| `Ventas.StatusSwitchOutcome` | js/pages/ventas.js:95-134 | Non-switch events are ignored. Cancelled to active is refused with a message, the switch goes back off, no question, no call. The endpoint is called once, with `false`, iff an active sale's cancellation is confirmed. Reload iff that call succeeds. Otherwise the switch goes back on |
| `Ventas.NoReactivation` | js/pages/ventas.js:106-115 | the endpoint is never asked to activate a sale, and a sale cancelled before the click always ends switched off |
| `Ventas.RenderedSwitchRoundTrip` | js/pages/ventas.js:104-107 | on a rendered row the inferred previous status is the sale's own. The switch ends as rendered unless an active sale's cancellation succeeds, which is the only case that reloads |
| `Ventas.StatusSwitch.constructor` | js/pages/ventas.js:22-26 | a switch is created with its status-switch class, sale identifier and checked value |
| `Ventas.StatusSwitch.HandleStatusSwitch` | js/pages/ventas.js:95-134 | the handler, assigning `checked` in place, ends with the state and effects the decision function gives |

## Left out

- Rendering: the row HTML, `innerHTML`, `insertAdjacentHTML`, the "loading"
  rows, and `applyUiPermissions`, which hides the create and edit buttons by
  style. Only the status flag of a sale row is kept.
- `cargarMetodosPago` (building `<option>` elements) is left out. It is
  rendering glue.
- Remote services (`tareaService`, `ventaService`): their answers are
  parameters. So are the outcomes of `confirm`. `alert` appears only as the
  message an outcome carries.
- Operations that only call a service and open or close a modal are left
  out: the create and edit form submissions of the task page, and the sales
  page's `openEditModal`, `handleUpdateSubmit` and `handleCreateVentaClick`.
  So are `loadContent` navigation and Bootstrap modals.
- The session user read from `localStorage` is a parameter. `getCurrentUser`'s
  JSON parse errors are modelled as a missing user.
- Date handling is left out, because it depends on time zones, locale and the
  host `Date` library:
  - `formatDateInputToLocalDatetime` and `formatDateDisplay`;
  - `toISOString` in the form submits;
  - the time-zone shift when a sale is created.

  Timestamps are opaque text.
- `debounce` and overlapping `loadPage` calls are left out. They are timers
  and asynchronous interleaving. Each load is one atomic step, so
  `renderPagination` uses the page the same load set.
- Interleaved status changes are left out. `handleStatusSwitch` is one
  atomic step, but the source awaits `cambiarEstado`
  (js/pages/ventas.js:123). A second change event on the same switch can
  run during that await, and the model does not represent it.
- Malformed task records are left out. Records are assumed well formed: no
  `null` entries and string descriptions. The source can throw after the
  fetch, inside the same `try` (js/pages/tareas.js:112-142): while
  filtering (lines 117 and 120) or while building a row (line 136). Such a
  throw shows the error row, but it does not restore the state:
  - the new `cachedTareas` stays;
  - from line 126 or 130 on, the new `totalPages` stays too;
  - no pagination is rendered.

  `PageState.LoadPage` does not model this path.
- The `Blob` download of the export is left out; only the CSV text is modelled.
- Commented-out code in `js/pages/ventas.js` is not modelled.
- Disabled links are a CSS class in the source. Whether the browser still
  delivers clicks on them is not modelled. The click rule itself has no
  range or disabled check.
- Object key order: `Object.keys` puts integer-like keys first. The model
  takes a record's key order as given.
- The export header is assumed, not read. The source takes it from
  `Object.keys` of the server's first task object (js/pages/tareas.js:313).
  The task export assumes that object has exactly the six `Tarea` fields, in
  the datatype's order. It also assumes every task has the same keys.
- Type coercions are left out. `id_rol === 4` is an integer comparison
  here, so a role sent as the string `"4"` (not restricted in the source)
  is not represented. Task identifiers are integers. `String(t.estado)`
  and `String(v)` are taken to be the values' text. A sale's `estado` is
  its truthiness.
- JavaScript numbers are doubles, so digit strings too long for exact
  representation lose precision in `parseInt`. Integers here are unbounded.
- JsSemantics.Slice: its contract states only the non-negative-bounds case
  (the only one a page >= 1 produces). Negative bounds, which count from the
  end as in JavaScript, are in its definition but not in its contract.
- JsSemantics.ToLower: maps only the ASCII letters A-Z. JavaScript's full
  Unicode case mapping is not modelled.
- JsSemantics.ParseInt: skips only ASCII white space, NBSP, BOM, LS and PS
  at the front. JavaScript also skips the other Unicode space separators.
  Its contract states when the result is NaN; the value is stated by
  `ParseIntRoundTrip` for the texts the pages write.
