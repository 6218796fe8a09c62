/** The history browser of src/app/history/page.tsx: the search term, the page and
    the success filter that select what is fetched from `/api/history`, and the query
    string each fetch sends. The network is not modelled: a fetch is the query it sends,
    and a delete is whether the user confirmed and whether the server answered ok. */
module HistoryPage {
  import opened Wrappers
  import opened JsText
  import HistoryApi

  /** The page size the browser always asks for. */
  const PageSize := "12"

  /** The query string of `fetchHistory(page, search, success)`: the page and the limit
      always, the search only when it is non-empty, the filter only when it is set. */
  function FetchQuery(page: nat, search: string, success: Option<bool>): (q: HistoryApi.Query)
    ensures "page" in q && q["page"] == NatToString(page)
    ensures "limit" in q && q["limit"] == PageSize
    ensures "search" in q <==> search != ""
    ensures "search" in q ==> q["search"] == search
    ensures "success" in q <==> success.Some?
    ensures "success" in q ==> q["success"] in {"true", "false"}
    ensures "success" in q ==> (q["success"] == "true" <==> success.value)
    ensures q.Keys <= {"page", "limit", "search", "success"}
  {
    var base := map["page" := NatToString(page), "limit" := PageSize];
    var withSearch := if search != "" then base["search" := search] else base;
    if success.Some? then withSearch["success" := if success.value then "true" else "false"]
    else withSearch
  }

  /** What the route reads back from the browser's query is exactly what the browser
      meant: the page, a limit of 12, the search term and the filter. */
  lemma FetchQueryRoundTrip(page: nat, search: string, success: Option<bool>)
    ensures HistoryApi.ParseListQuery(FetchQuery(page, search, success)) ==
            HistoryApi.ListParams(Some(page), Some(12), search, success)
  {
    var q := FetchQuery(page, search, success);
    PageReadsBack(q, page);
    LimitReadsBack(q);
  }

  /** The route reads the page the browser wrote. */
  lemma PageReadsBack(q: HistoryApi.Query, page: nat)
    requires "page" in q && q["page"] == NatToString(page)
    ensures ParseInt(HistoryApi.GetOr(q, "page", "1")) == Some(page as int)
  {
    ParseIntOfNatToString(page);
  }

  /** The route reads the page size the browser wrote as 12. */
  lemma LimitReadsBack(q: HistoryApi.Query)
    requires "limit" in q && q["limit"] == PageSize
    ensures ParseInt(HistoryApi.GetOr(q, "limit", "12")) == Some(12)
  {
    assert NatToString(12) == PageSize;
    ParseIntOfNatToString(12);
  }

  /** What the route answers to the browser's query is the store's answer for the
      browser's own page, search and filter with 12 per page, or the fixed 500. */
  lemma FetchedListReply<R>(page: nat, search: string, success: Option<bool>,
                            list: HistoryApi.ListParams -> Option<R>)
    ensures var answer := list(HistoryApi.ListParams(Some(page), Some(12), search, success));
            var r := HistoryApi.HandleList(FetchQuery(page, search, success), list);
            (answer.Some? ==> r == HistoryApi.Answered(answer.value)) &&
            (answer.None? ==> r == HistoryApi.Rejected(500, HistoryApi.ListFailedError))
  {
    FetchQueryRoundTrip(page, search, success);
  }

  /** The state that drives the fetch effect. */
  datatype BrowseState = BrowseState(searchTerm: string, currentPage: nat, filterSuccess: Option<bool>)

  /** The state on first render: no search, page 1, no filter. */
  const Initial := BrowseState("", 1, None)

  /** Pages are counted from 1. */
  predicate Valid(st: BrowseState) {
    st.currentPage >= 1
  }

  /** The query the effect sends for a state. */
  function CurrentQuery(st: BrowseState): HistoryApi.Query {
    FetchQuery(st.currentPage, st.searchTerm, st.filterSuccess)
  }

  /** What the route reads from the query of a state. */
  lemma CurrentQueryRoundTrip(st: BrowseState)
    ensures HistoryApi.ParseListQuery(CurrentQuery(st)) ==
            HistoryApi.ListParams(Some(st.currentPage as int), Some(12), st.searchTerm, st.filterSuccess)
  {
    FetchQueryRoundTrip(st.currentPage, st.searchTerm, st.filterSuccess);
  }

  /** Typing in the search box: a new term starts again from the first page. */
  function HandleSearch(st: BrowseState, value: string): (r: BrowseState)
    ensures Valid(r)
    ensures HistoryApi.ParseListQuery(CurrentQuery(r)) ==
            HistoryApi.ListParams(Some(1), Some(12), value, st.filterSuccess)
  {
    var r := st.(searchTerm := value, currentPage := 1);
    CurrentQueryRoundTrip(r);
    r
  }

  /** A filter button (all, success, failure): a new filter starts again from the
      first page and keeps the search. */
  function HandleFilterSuccess(st: BrowseState, value: Option<bool>): (r: BrowseState)
    ensures Valid(r)
    ensures HistoryApi.ParseListQuery(CurrentQuery(r)) ==
            HistoryApi.ListParams(Some(1), Some(12), st.searchTerm, value)
  {
    var r := st.(filterSuccess := value, currentPage := 1);
    CurrentQueryRoundTrip(r);
    r
  }

  /** The "load more" button, shown only once a response is loaded (`hasMore` is `None`
      before) and it says more pages follow; pressing it asks for the next page with
      the same search and filter. */
  function LoadMore(st: BrowseState, hasMore: Option<bool>): (r: Option<BrowseState>)
    ensures r.Some? <==> hasMore == Some(true)
    ensures r.Some? ==> r.value.searchTerm == st.searchTerm && r.value.filterSuccess == st.filterSuccess
    ensures r.Some? ==> HistoryApi.ParseListQuery(CurrentQuery(r.value)) ==
                        HistoryApi.ListParams(Some(st.currentPage + 1), Some(12), st.searchTerm, st.filterSuccess)
    ensures r.Some? && Valid(st) ==> Valid(r.value)
  {
    if hasMore == Some(true) then
      var next := st.(currentPage := st.currentPage + 1);
      CurrentQueryRoundTrip(next);
      Some(next)
    else None
  }

  /** What pressing delete on a record does: the id sent with `DELETE`, and the query
      of the refetch that follows. */
  datatype DeleteEffects = DeleteEffects(deleted: Option<string>, refetch: Option<HistoryApi.Query>)

  /** `handleDelete`: nothing unless the user confirms; a confirmed delete is sent, and
      only an ok answer refetches, for the same page, search and filter. A failed
      request (`serverOk` false) is logged and changes nothing. */
  function HandleDelete(st: BrowseState, id: string, confirmed: bool, serverOk: bool): (r: DeleteEffects)
    ensures r.deleted.Some? <==> confirmed
    ensures r.deleted.Some? ==> r.deleted.value == id
    ensures r.refetch.Some? <==> confirmed && serverOk
    ensures r.refetch.Some? ==>
              HistoryApi.ParseListQuery(r.refetch.value) ==
              HistoryApi.ListParams(Some(st.currentPage as int), Some(12), st.searchTerm, st.filterSuccess)
  {
    if !confirmed then DeleteEffects(None, None)
    else if !serverOk then DeleteEffects(Some(id), None)
    else
      CurrentQueryRoundTrip(st);
      DeleteEffects(Some(id), Some(CurrentQuery(st)))
  }

  /** The first fetch asks for page 1 of everything, 12 per page. */
  lemma InitialFetch()
    ensures Valid(Initial)
    ensures HistoryApi.ParseListQuery(CurrentQuery(Initial)) ==
            HistoryApi.ListParams(Some(1), Some(12), "", None)
  {
    CurrentQueryRoundTrip(Initial);
  }
}
