/**
 * The task page's module-level state (js/pages/tareas.js: `cachedTareas`,
 * `currentPage`, `totalPages`) and the list loader `loadPage` that updates
 * it. The session user, the table element's presence, the filter inputs and
 * the answers of the two task services are parameters.
 */
module TareasPage {
  import opened JsSemantics
  import opened TareasList
  import opened TareasPagination

  /** The raw values of the status select, the two date inputs and the search box. */
  datatype Filters = Filters(estado: string, fechaInicio: string, fechaFin: string, search: string)

  /** The service request a load makes. */
  datatype Request =
    | GetByUser(id_usuario: int)
    | GetPaginated(page: int, page_size: int, fecha_inicio: Option<string>, fecha_fin: Option<string>)

  /** What the table body shows after a load. */
  datatype TableBody = Untouched | NotAuthenticated | Rows(tareas: seq<Tarea>) | NoResults | LoadError

  /** `el.value || null`, later `|| undefined`: an empty date input sends no parameter. */
  function DateParam(v: string): (p: Option<string>)
    ensures p.None? <==> v == ""
    ensures p.Some? ==> p.value == v
  {
    if v == "" then None else Some(v)
  }

  /** The restricted role asks for its own whole list; every other role asks for one server page of `pageSize` tasks. */
  function RequestFor(user: User, page: int, filters: Filters): (r: Request)
    ensures r.GetByUser? <==> IsRestricted(user)
    ensures r.GetByUser? ==> r.id_usuario == user.id_usuario
    ensures r.GetPaginated? ==> r.page == page && r.page_size == PageSize
    ensures r.GetPaginated? ==> r.fecha_inicio == DateParam(filters.fechaInicio) && r.fecha_fin == DateParam(filters.fechaFin)
  {
    if IsRestricted(user) then GetByUser(user.id_usuario)
    else GetPaginated(page, PageSize, DateParam(filters.fechaInicio), DateParam(filters.fechaFin))
  }

  /** The answer of the service the user's role calls. */
  function ServiceAnswer(user: User, byUser: Call<Option<seq<Tarea>>>, paginated: Call<Option<PagedResponse>>): Call<Fetched>
  {
    if IsRestricted(user) then
      (if byUser.Threw? then Threw else Returned(ByUser(byUser.value)))
    else
      (if paginated.Threw? then Threw else Returned(Paginated(paginated.value)))
  }

  class PageState {
    /** The last fetched list, before filtering. */
    var cachedTareas: seq<Tarea>
    var currentPage: int
    var totalPages: int

    constructor ()
      ensures cachedTareas == [] && currentPage == 1 && totalPages == 1
    {
      cachedTareas := [];
      currentPage := 1;
      totalPages := 1;
    }

    /**
     * `loadPage(page)`. The current page is set before anything can fail. On
     * success the cache becomes the fetched list before filtering, the page
     * count is recomputed, the rows (or "no results") are shown and the
     * pagination control is rendered for the new state; on a missing table, a
     * missing user or a failed call, cache and page count keep their old values.
     */
    method LoadPage(page: int, hasTable: bool, user: Option<User>, filters: Filters,
                    byUser: Call<Option<seq<Tarea>>>, paginated: Call<Option<PagedResponse>>)
      returns (request: Option<Request>, body: TableBody, pagination: Option<seq<PageItem>>)
      modifies this
      ensures currentPage == page
      ensures request == if hasTable && user.Some? then Some(RequestFor(user.value, page, filters)) else None
      ensures !hasTable ==> body == Untouched
      ensures hasTable && user.None? ==> body == NotAuthenticated
      ensures hasTable && user.Some? && ServiceAnswer(user.value, byUser, paginated).Threw? ==> body == LoadError
      ensures (!hasTable || user.None? || ServiceAnswer(user.value, byUser, paginated).Threw?) ==>
        cachedTareas == old(cachedTareas) && totalPages == old(totalPages) && pagination.None?
      ensures hasTable && user.Some? && ServiceAnswer(user.value, byUser, paginated).Returned? ==>
        var r := Reconcile(ServiceAnswer(user.value, byUser, paginated).value, page, filters.estado, filters.search);
        cachedTareas == r.cache && totalPages == r.totalPages &&
        body == (if r.displayed == [] then NoResults else Rows(r.displayed)) &&
        pagination == Some(PaginationItems(page, r.totalPages))
    {
      currentPage := page;
      request, pagination := None, None;
      if !hasTable {
        body := Untouched;
        return;
      }
      if user.None? {
        body := NotAuthenticated;
        return;
      }
      var u := user.value;
      request := Some(RequestFor(u, page, filters));
      var answer := ServiceAnswer(u, byUser, paginated);
      if answer.Threw? {
        body := LoadError;
        return;
      }
      var data := ResponseData(answer.value);
      var tareasList := if data.tareas.Some? then data.tareas.value else [];
      cachedTareas := tareasList;
      var filtered := ApplyFilters(tareasList, filters.estado, filters.search);
      var displayed := filtered;
      if IsRestricted(u) {
        totalPages := ClientTotalPages(|filtered|);
        displayed := ClientPage(filtered, page);
      } else {
        totalPages := ServerTotalPages(data, |filtered|);
      }
      body := if displayed == [] then NoResults else Rows(displayed);
      var items := RenderPagination(currentPage, totalPages);
      pagination := Some(items);
    }
  }

  /** Every row a load shows can be opened for editing from the cache that load left behind. */
  lemma ShownRowsAreEditable(f: Fetched, page: int, estado: string, search: string, t: Tarea)
    requires t in Reconcile(f, page, estado, search).displayed
    ensures var cache := Reconcile(f, page, estado, search).cache;
      EditTarget(cache, IntToString(t.id_tarea)).Some? &&
      EditTarget(cache, IntToString(t.id_tarea)).value.id_tarea == t.id_tarea
  {
    EditButtonFindsCachedTask(Reconcile(f, page, estado, search).cache, t);
  }

  /**
   * A privileged user's load that receives `{ tareas: [], total_tareas: 0,
   * total_pages: 1 }` for page 1 shows the "no results" row and a control with
   * page 1 only, active, and both arrows disabled.
   */
  lemma EmptyServerPageScenario(estado: string, search: string)
    ensures var r := Reconcile(Paginated(Some(PagedResponse(Some([]), Some(0), Some(1)))), 1, estado, search);
      r.displayed == [] && r.totalPages == 1 &&
      PaginationItems(1, r.totalPages) ==
        [PageItem(1, Prev, false, true), PageItem(1, Number, true, false), PageItem(1, Next, false, true)]
  {
    var items := PaginationItems(1, 1);
    ItemAt(1, 1, 0);
    ItemAt(1, 1, 1);
    ItemAt(1, 1, 2);
  }
}
