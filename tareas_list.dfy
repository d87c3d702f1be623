/**
 * The rule sets under the task page's list loader (js/pages/tareas.js):
 * the status and search filters, the two ways of counting pages, the
 * client-side page slice, the reconciliation of a fetched response into
 * cache / filtered list / displayed rows / page count, and the look-up of a
 * task in the page cache by identifier.
 */
module TareasList {
  import opened JsSemantics

  /** `pageSize` is fixed at 10 and never reassigned. */
  const PageSize: int := 10

  /** The role identifier of the restricted "operario" role (`user.id_rol === 4`). */
  const RestrictedRole: int := 4

  /**
   * A task record as the server returns it. A missing description is the empty
   * string (both are falsy in the search filter); a missing end timestamp is `None`.
   */
  datatype Tarea = Tarea(
    id_tarea: int,
    id_usuario: int,
    descripcion: string,
    fecha_hora_init: string,
    fecha_hora_fin: Option<string>,
    estado: string)

  /** The session user: only its identifier and its role matter here. */
  datatype User = User(id_usuario: int, id_rol: int)

  predicate IsRestricted(u: User) { u.id_rol == RestrictedRole }

  /** The paginated endpoint's answer `{ tareas, total_tareas, total_pages }`; absent fields are `None`. */
  datatype PagedResponse = PagedResponse(tareas: Option<seq<Tarea>>, total_tareas: Option<int>, total_pages: Option<int>)

  /** What the role's service call returned: the user's whole list, or one server page (either may be missing). */
  datatype Fetched = ByUser(list: Option<seq<Tarea>>) | Paginated(response: Option<PagedResponse>)

  // ---------------------------------------------------------------------------
  // Client-side filters

  /** The status filter: no filtering for `""` or `"all"`, otherwise keep the tasks in that status. */
  predicate EstadoMatches(t: Tarea, estado: string)
  {
    estado == "" || estado == "all" || t.estado == estado
  }

  /** The search filter on an already lower-cased query. */
  predicate SearchMatches(t: Tarea, query: string)
  {
    query == "" || Includes(ToLower(t.descripcion), query)
  }

  function FilterByEstado(ts: seq<Tarea>, estado: string): (r: seq<Tarea>)
    ensures IsSubsequence(r, ts)
    ensures forall t :: multiset(r)[t] == if EstadoMatches(t, estado) then multiset(ts)[t] else 0
  {
    if estado != "" && estado != "all" then
      Filter(ts, (t: Tarea) => t.estado == estado)
    else
      SubsequenceReflexive(ts);
      ts
  }

  lemma EmptyTextIncludesOnlyEmpty()
    ensures forall needle :: Includes("", needle) ==> needle == ""
  {
  }

  function SearchFilter(ts: seq<Tarea>, query: string): (r: seq<Tarea>)
    ensures IsSubsequence(r, ts)
    ensures forall t :: multiset(r)[t] == if SearchMatches(t, query) then multiset(ts)[t] else 0
  {
    if query != "" then
      EmptyTextIncludesOnlyEmpty();
      Filter(ts, (t: Tarea) => t.descripcion != "" && Includes(ToLower(t.descripcion), query))
    else
      SubsequenceReflexive(ts);
      ts
  }

  /**
   * The status filter followed by the search filter on the lower-cased query:
   * the result keeps exactly the tasks that pass both, as often as they occur
   * and in their original order; with `"all"` (or `""`) and an empty query it
   * is the whole list.
   */
  function ApplyFilters(ts: seq<Tarea>, estado: string, search: string): (r: seq<Tarea>)
    ensures IsSubsequence(r, ts)
    ensures forall t :: multiset(r)[t] ==
                        if EstadoMatches(t, estado) && SearchMatches(t, ToLower(search)) then multiset(ts)[t] else 0
    ensures (estado == "" || estado == "all") && search == "" ==> r == ts
  {
    var byEstado := FilterByEstado(ts, estado);
    var r := SearchFilter(byEstado, ToLower(search));
    SubsequenceTransitive(r, byEstado, ts);
    r
  }

  /** Membership form of the filters' contract. */
  lemma FilteredMembers(ts: seq<Tarea>, estado: string, search: string)
    ensures forall t :: t in ApplyFilters(ts, estado, search) <==>
                        t in ts && EstadoMatches(t, estado) && SearchMatches(t, ToLower(search))
  {
    var r := ApplyFilters(ts, estado, search);
    forall t ensures t in r <==> t in ts && EstadoMatches(t, estado) && SearchMatches(t, ToLower(search)) {
      assert t in r <==> multiset(r)[t] > 0;
      assert t in ts <==> multiset(ts)[t] > 0;
    }
  }

  /**
   * The search ignores case: a task of the selected status is kept when its
   * description contains some text `typed` that differs from the query only
   * in the case of its letters.
   */
  lemma SearchFindsTypedText(ts: seq<Tarea>, estado: string, search: string, typed: string, t: Tarea)
    requires t in ts && EstadoMatches(t, estado)
    requires Includes(t.descripcion, typed) && ToLower(typed) == ToLower(search)
    ensures t in ApplyFilters(ts, estado, search)
  {
    IncludesToLower(t.descripcion, typed);
    FilteredMembers(ts, estado, search);
  }

  /** Searching "HOLA" keeps a task described "Hola mundo". */
  lemma UpperCaseQueryFindsTask(t: Tarea)
    requires t.descripcion == "Hola mundo"
    ensures t in ApplyFilters([t], "all", "HOLA")
  {
    assert ToLower("Hola") == "hola" == ToLower("HOLA");
    assert t.descripcion[..4] == "Hola";
    assert Includes(t.descripcion, "Hola");
    SearchFindsTypedText([t], "all", "HOLA", "Hola", t);
  }

  // ---------------------------------------------------------------------------
  // Page counts and the client-side page slice

  /** `Math.ceil(a / pageSize)` for an integer `a`. */
  function CeilPages(a: int): (q: int)
    ensures (q - 1) * PageSize < a <= q * PageSize
  {
    (a + PageSize - 1) / PageSize
  }

  /** Restricted role: `Math.max(1, Math.ceil(filtered.length / pageSize))`. */
  function ClientTotalPages(n: nat): (r: int)
    ensures r >= 1
    ensures n <= PageSize ==> r == 1
    ensures n > 0 ==> (r - 1) * PageSize < n <= r * PageSize
  {
    Max(1, CeilPages(n))
  }

  /**
   * Other roles: the server's `total_pages` when truthy, otherwise
   * `Math.max(1, Math.ceil((total_tareas || filtered.length) / pageSize))`.
   */
  function ServerTotalPages(resp: PagedResponse, filteredCount: nat): (r: int)
    ensures Truthy(resp.total_pages) ==> r == resp.total_pages.value
    ensures !Truthy(resp.total_pages) ==>
      var count := if Truthy(resp.total_tareas) then resp.total_tareas.value else filteredCount;
      r >= 1 && (count <= PageSize ==> r == 1) && (count > PageSize ==> (r - 1) * PageSize < count <= r * PageSize)
  {
    if Truthy(resp.total_pages) then resp.total_pages.value
    else Max(1, CeilPages(if Truthy(resp.total_tareas) then resp.total_tareas.value else filteredCount))
  }

  /** `filtered.slice(start, start + pageSize)` with `start = (page - 1) * pageSize`. */
  function ClientPage(filtered: seq<Tarea>, page: int): (r: seq<Tarea>)
    ensures |r| <= PageSize
    ensures forall t :: t in r ==> t in filtered
    ensures page >= 1 ==>
      r == filtered[Min((page - 1) * PageSize, |filtered|)..Min(page * PageSize, |filtered|)]
  {
    var start := (page - 1) * PageSize;
    Slice(filtered, start, start + PageSize)
  }

  /** The pages 1..k of a client-paginated list, concatenated. */
  function PagesUpTo(s: seq<Tarea>, k: nat): seq<Tarea>
    decreases k
  {
    if k == 0 then [] else PagesUpTo(s, k - 1) + ClientPage(s, k)
  }

  lemma {:induction false} PagesUpToIsPrefix(s: seq<Tarea>, k: nat)
    ensures PagesUpTo(s, k) == s[..Min(k * PageSize, |s|)]
    decreases k
  {
    if k > 0 {
      PagesUpToIsPrefix(s, k - 1);
      var a := Min((k - 1) * PageSize, |s|);
      var b := Min(k * PageSize, |s|);
      assert s[..a] + s[a..b] == s[..b];
    }
  }

  /**
   * Restricted role: pages 1..totalPages, concatenated, give back the filtered
   * list, so every filtered task is shown on exactly one page, once.
   */
  lemma PagesPartitionFiltered(s: seq<Tarea>)
    ensures PagesUpTo(s, ClientTotalPages(|s|)) == s
  {
    PagesUpToIsPrefix(s, ClientTotalPages(|s|));
  }

  /** Restricted role: a page past the last one shows nothing. */
  lemma PageBeyondLastIsEmpty(s: seq<Tarea>, page: int)
    requires page > ClientTotalPages(|s|)
    ensures ClientPage(s, page) == []
  {
  }

  // ---------------------------------------------------------------------------
  // Reconciliation of one successful load

  /** The `responseData` object each branch of the load builds. */
  function ResponseData(f: Fetched): PagedResponse
  {
    match f
    case ByUser(list) =>
      var arr := if list.Some? then list.value else [];
      PagedResponse(Some(arr), Some(|arr|), Some(1))
    case Paginated(response) =>
      if response.Some? then response.value else PagedResponse(Some([]), Some(0), Some(1))
  }

  /** The list the service returned, or the empty list when it is missing. */
  function FetchedTareas(f: Fetched): seq<Tarea>
  {
    match f
    case ByUser(list) => if list.Some? then list.value else []
    case Paginated(response) =>
      if response.Some? && response.value.tareas.Some? then response.value.tareas.value else []
  }

  /** What one successful load produces: the new cache, the filtered list, the rows shown and the page count. */
  datatype Reconciled = Reconciled(cache: seq<Tarea>, filtered: seq<Tarea>, displayed: seq<Tarea>, totalPages: int)

  function Reconcile(f: Fetched, page: int, estado: string, search: string): (r: Reconciled)
    // the cache holds the fetched list before any filtering
    ensures r.cache == FetchedTareas(f)
    ensures r.filtered == ApplyFilters(r.cache, estado, search)
    ensures forall t :: t in r.displayed ==> t in r.cache
    ensures f.ByUser? ==>
      r.totalPages == ClientTotalPages(|r.filtered|) && r.displayed == ClientPage(r.filtered, page)
    ensures f.Paginated? ==>
      r.displayed == r.filtered && r.totalPages == ServerTotalPages(ResponseData(f), |r.filtered|)
  {
    var data := ResponseData(f);
    var tareasList := if data.tareas.Some? then data.tareas.value else [];
    var filtered := ApplyFilters(tareasList, estado, search);
    FilteredMembers(tareasList, estado, search);
    if f.ByUser? then
      Reconciled(tareasList, filtered, ClientPage(filtered, page), ClientTotalPages(|filtered|))
    else
      Reconciled(tareasList, filtered, filtered, ServerTotalPages(data, |filtered|))
  }

  /** Restricted role: at least one page, and at most `pageSize` rows shown. */
  lemma RestrictedLoadBounds(list: Option<seq<Tarea>>, page: int, estado: string, search: string)
    ensures var r := Reconcile(ByUser(list), page, estado, search);
      r.totalPages >= 1 && |r.displayed| <= PageSize &&
      (page > r.totalPages ==> r.displayed == [])
  {
    var r := Reconcile(ByUser(list), page, estado, search);
    if page > r.totalPages {
      PageBeyondLastIsEmpty(r.filtered, page);
    }
  }

  // ---------------------------------------------------------------------------
  // Look-up in the page cache

  /** `cachedTareas.find(x => x.id_tarea === id)`. */
  function FindById(cache: seq<Tarea>, id: int): (r: Option<Tarea>)
    ensures r.None? <==> forall t :: t in cache ==> t.id_tarea != id
    ensures r.Some? ==> r.value in cache && r.value.id_tarea == id
    decreases |cache|
  {
    if cache == [] then None
    else if cache[0].id_tarea == id then Some(cache[0])
    else
      assert cache == [cache[0]] + cache[1..];
      FindById(cache[1..], id)
  }

  /** The look-up returns the first task carrying the identifier. */
  lemma {:induction false} FindByIdIsFirst(cache: seq<Tarea>, id: int, i: int)
    requires 0 <= i < |cache| && cache[i].id_tarea == id
    requires forall j :: 0 <= j < i ==> cache[j].id_tarea != id
    ensures FindById(cache, id) == Some(cache[i])
    decreases i
  {
    if i > 0 {
      FindByIdIsFirst(cache[1..], id, i - 1);
    }
  }

  /**
   * Clicking a row's edit button: the button's `data-id` text is parsed with
   * `parseInt` and looked up in the cache; NaN matches nothing.
   */
  function EditTarget(cache: seq<Tarea>, dataId: string): (r: Option<Tarea>)
    ensures r.Some? ==> r.value in cache
    ensures ParseInt(dataId).None? ==> r.None?
    ensures r.Some? ==> r.value.id_tarea == ParseInt(dataId).value
    ensures ParseInt(dataId).Some? ==>
      (r.None? <==> forall t :: t in cache ==> t.id_tarea != ParseInt(dataId).value)
  {
    match ParseInt(dataId)
    case None => None
    case Some(id) => FindById(cache, id)
  }

  /** The edit button of any cached task (its `data-id` is `${id_tarea}`) finds a task with that identifier. */
  lemma EditButtonFindsCachedTask(cache: seq<Tarea>, t: Tarea)
    requires t in cache
    ensures EditTarget(cache, IntToString(t.id_tarea)).Some?
    ensures EditTarget(cache, IntToString(t.id_tarea)).value.id_tarea == t.id_tarea
  {
    ParseIntRoundTrip(t.id_tarea);
  }
}
