/**
  The posts page: the list request it sends for its search text and page
  number, and the counters and pager it shows for a response.
 */
module PostsFeature {
  import opened Common
  import opened PostMethods

  /** Posts per page on this screen. */
  const PageSize: nat := 10

  /** The page's own state: the search box and the zero-based page index. */
  datatype ListState = ListState(search: string, page: nat)

  const InitialState: ListState := ListState("", 0)

  /** The query the page sends: `{ limit, offset: page * limit, search }`.
      It names no `page`. */
  function Request(s: ListState): (q: ListQuery)
    ensures q.page.None?
    ensures q.limit == Some(PageSize)
    ensures q.offset.Some? && q.offset.value == s.page * PageSize
    ensures q.offset.value % PageSize == 0 && q.offset.value / PageSize == s.page
    ensures q.search == NonEmpty(s.search)
  {
    ListQuery(None, Some(PageSize), Some(s.page * PageSize), NonEmpty(s.search))
  }

  /** `handleSearch`: a new search text always restarts at the first page. */
  function HandleSearch(s: ListState, value: string): (r: ListState)
    ensures r.search == value && r.page == 0
    ensures Request(r).offset == Some(0)
  {
    ListState(value, 0)
  }

  /** "Anterior": only clickable off the first page. */
  function Previous(s: ListState): (r: ListState)
    ensures r.search == s.search
    ensures s.page == 0 ==> r == s
    ensures s.page > 0 ==> r.page + 1 == s.page
  {
    if s.page == 0 then s else s.(page := s.page - 1)
  }

  /** "Próxima": only clickable while the response says there is more. */
  function Next(s: ListState, hasMore: bool): (r: ListState)
    ensures r.search == s.search
    ensures !hasMore ==> r == s
    ensures hasMore ==> r.page == s.page + 1
  {
    if hasMore then s.(page := s.page + 1) else s
  }

  /** `Math.ceil(total / limit)`. */
  function PageCount(total: nat): (n: nat)
    ensures n * PageSize >= total
    ensures n > 0 ==> (n - 1) * PageSize < total
    ensures n == 0 <==> total == 0
  {
    (total + PageSize - 1) / PageSize
  }

  /** The page count is the least number of full pages that holds every post. */
  lemma PageCountIsLeast(total: nat, m: nat)
    requires m * PageSize >= total
    ensures PageCount(total) <= m
  {
  }

  /** The pager shown under the list. */
  datatype Pager = Pager(previousDisabled: bool, pageLabel: nat, pageCount: nat, nextDisabled: bool)

  /** The pager is shown only when there are more posts than fit a page. */
  function PagerView(s: ListState, total: nat, hasMore: bool): (r: Option<Pager>)
    ensures r.Some? <==> total > PageSize
    ensures r.Some? ==> (r.value.previousDisabled <==> s.page == 0)
    ensures r.Some? ==> (r.value.nextDisabled <==> !hasMore)
    ensures r.Some? ==> r.value.pageLabel == s.page + 1 && r.value.pageCount >= 2
    ensures r.Some? ==> r.value.pageCount == PageCount(total)
  {
    if total > PageSize then
      Some(Pager(s.page == 0, s.page + 1, PageCount(total), !hasMore))
    else None
  }

  /** Clicking a control the pager shows enabled moves one page; a disabled
      control leaves the state as it is. */
  lemma PagerMovesOnePage(s: ListState, total: nat, hasMore: bool)
    requires PagerView(s, total, hasMore).Some?
    ensures var v := PagerView(s, total, hasMore).value;
            && (v.previousDisabled ==> Previous(s) == s)
            && (!v.previousDisabled ==> Previous(s).page + 1 == s.page)
            && (v.nextDisabled ==> Next(s, hasMore) == s)
            && (!v.nextDisabled ==> Next(s, hasMore).page == s.page + 1)
  {
  }

  const SingularCount: string := "post encontrado"
  const PluralCount: string := "posts encontrados"

  /** The counter badge's noun. */
  function CountLabel(total: nat): (noun: string)
    ensures noun == SingularCount <==> total == 1
    ensures noun == PluralCount <==> total != 1
  {
    if total == 1 then SingularCount else PluralCount
  }

  const NoResultsForSearch: string := "Nenhum post encontrado para sua pesquisa."
  const NoResults: string := "Nenhum post encontrado."
  const FirstPostPrompt: string := "Faça login para criar o primeiro post!"

  /** What an empty list shows: a message that depends on the search box,
      and the login invitation for a visitor. */
  datatype EmptyList = EmptyList(message: string, loginPrompt: bool)

  function EmptyListView(search: string, authenticated: bool): (r: EmptyList)
    ensures r.message == NoResultsForSearch <==> search != []
    ensures r.message == NoResults <==> search == []
    ensures r.loginPrompt <==> !authenticated
  {
    EmptyList(if search != [] then NoResultsForSearch else NoResults, !authenticated)
  }
}
