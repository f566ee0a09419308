/** The page's state: the coin list, the search text, the active filters and
    the current page, and the handlers that change them. */
module Dashboard {

  import opened Wrappers
  import opened CoinTypes
  import SnapshotMerge
  import ViewFilter
  import Pagination

  // ---------------------------------------------------------------------------
  // The filter list

  /** `prev.filter(f => f !== filter)`. */
  function RemoveAll(filters: seq<string>, filter: string): (r: seq<string>)
    ensures |r| <= |filters|
    ensures forall g :: g in r <==> g in filters && g != filter
    decreases |filters|
  {
    if filters == [] then []
    else (if filters[0] == filter then [] else [filters[0]]) + RemoveAll(filters[1..], filter)
  }

  /** Removing a name that is not there changes nothing, and removing it
      ignores one copy of it added at the end. */
  lemma {:induction false} RemoveAllFacts(filters: seq<string>, filter: string)
    ensures filter !in filters ==> RemoveAll(filters, filter) == filters
    ensures RemoveAll(filters + [filter], filter) == RemoveAll(filters, filter)
    decreases |filters|
  {
    if filters == [] {
      assert [] + [filter] == [filter];
    } else {
      RemoveAllFacts(filters[1..], filter);
      assert (filters + [filter])[1..] == filters[1..] + [filter];
    }
  }

  /** The filter list after clicking `filter`: a present name is removed
      wherever it occurs, an absent one is appended. */
  function Toggled(filters: seq<string>, filter: string): (r: seq<string>)
    ensures filter in r <==> filter !in filters
    ensures forall g :: g != filter ==> (g in r <==> g in filters)
    ensures filter !in filters ==> |r| == |filters| + 1 && r[..|filters|] == filters
  {
    if filter in filters then RemoveAll(filters, filter) else filters + [filter]
  }

  /** Clicking an inactive filter twice gives back exactly the list it started with. */
  lemma ToggleTwice(filters: seq<string>, filter: string)
    requires filter !in filters
    ensures Toggled(Toggled(filters, filter), filter) == filters
  {
    RemoveAllFacts(filters, filter);
  }

  /** Clicking any filter twice gives back the same set of names (a name that
      occurred several times is left once, at the end). */
  lemma ToggleTwiceSameMembers(filters: seq<string>, filter: string)
    ensures forall g :: g in Toggled(Toggled(filters, filter), filter) <==> g in filters
  {
  }

  // ---------------------------------------------------------------------------
  // The page state

  /** What one refresh hands back: the records fetched (possibly none), or an error. */
  datatype RefreshResult = Fetched(coins: seq<Coin>) | Failed

  class CryptoDashboard {
    var data: seq<Coin>
    var search: string
    var activeFilters: seq<string>
    var currentPage: int

    /** The initial state: the server's list, no search, no filter, page 1. */
    constructor(initialData: seq<Coin>)
      ensures data == initialData
      ensures search == "" && activeFilters == [] && currentPage == 1
    {
      data := initialData;
      search := "";
      activeFilters := [];
      currentPage := 1;
    }

    /** The rows the table would list before paging. */
    function FilteredData(): (r: seq<Coin>)
      reads this
      ensures forall c :: c in r <==> c in data && ViewFilter.Selected(c, search, activeFilters)
    {
      ViewFilter.FilteredDataContents(data, search, activeFilters);
      ViewFilter.FilteredData(data, search, activeFilters)
    }

    /** The rows of the current page: at most ten, all of them selected rows. */
    function PaginatedData(): (r: seq<Coin>)
      reads this
      ensures |r| <= ViewFilter.ItemsPerPage
      ensures forall c :: c in r ==> c in data && ViewFilter.Selected(c, search, activeFilters)
    {
      var all := FilteredData();
      ViewFilter.PageBounds(all, currentPage);
      var r := ViewFilter.PageOf(all, currentPage);
      assert forall c :: c in r ==> c in all;
      r
    }

    function TotalPages(): nat
      reads this
    {
      ViewFilter.TotalPages(|FilteredData()|)
    }

    /** `toggleFilter`: flips the filter and goes back to page 1. */
    method ToggleFilter(filter: string)
      modifies this
      ensures activeFilters == Toggled(old(activeFilters), filter)
      ensures currentPage == 1
      ensures data == old(data) && search == old(search)
    {
      activeFilters := Toggled(activeFilters, filter);
      currentPage := 1;
    }

    /** `handleSearchChange`: takes the new text and goes back to page 1. */
    method SetSearch(value: string)
      modifies this
      ensures search == value && currentPage == 1
      ensures data == old(data) && activeFilters == old(activeFilters)
    {
      search := value;
      currentPage := 1;
    }

    /** `onPageChange`: a page number chosen in the strip. */
    method SetCurrentPage(page: int)
      modifies this
      ensures currentPage == page
      ensures data == old(data) && search == old(search) && activeFilters == old(activeFilters)
    {
      currentPage := page;
    }

    /** The Previous button: one page back, unless on the first page. The
        button exists only while the strip is rendered, that is with more
        than one page. */
    method ClickPrevious()
      requires TotalPages() > 1
      modifies this
      ensures currentPage == (if old(currentPage) > 1 then old(currentPage) - 1 else old(currentPage))
      ensures data == old(data) && search == old(search) && activeFilters == old(activeFilters)
      ensures 1 <= old(currentPage) <= TotalPages() ==> 1 <= currentPage <= TotalPages()
    {
      match Pagination.PreviousPage(currentPage)
      case Some(page) => currentPage := page;
      case None =>
    }

    /** The Next button: one page on, unless on the last page; like Previous,
        it exists only with more than one page. */
    method ClickNext()
      requires TotalPages() > 1
      modifies this
      ensures currentPage == (if old(currentPage) < old(TotalPages()) then old(currentPage) + 1 else old(currentPage))
      ensures data == old(data) && search == old(search) && activeFilters == old(activeFilters)
      ensures 1 <= old(currentPage) <= TotalPages() ==> 1 <= currentPage <= TotalPages()
    {
      match Pagination.NextPage(currentPage, TotalPages())
      case Some(page) => currentPage := page;
      case None =>
    }

    /** One tick of the refresh timer. A non-empty fetch is merged into the
        list; an empty fetch or an error leaves everything as it was. The merge
        never duplicates an id. */
    method Refresh(result: RefreshResult)
      modifies this
      ensures data == (if result.Fetched? && |result.coins| > 0
                       then SnapshotMerge.Merge(old(data), result.coins) else old(data))
      ensures UniqueIds(old(data)) ==> UniqueIds(data)
      ensures search == old(search) && activeFilters == old(activeFilters) && currentPage == old(currentPage)
    {
      if result.Fetched? && |result.coins| > 0 {
        if UniqueIds(data) {
          SnapshotMerge.MergeKeepsIdsUnique(data, result.coins);
        }
        data := SnapshotMerge.MergeRefresh(data, result.coins);
      }
    }
  }

  /** After a filter click or a search the table shows the first ten selected
      rows, and the strip shows page 1 whenever it shows anything. */
  lemma BackToFirstPage(d: CryptoDashboard)
    requires d.currentPage == 1
    ensures d.PaginatedData() == d.FilteredData()[..Min(ViewFilter.ItemsPerPage, |d.FilteredData()|)]
    ensures Pagination.RenderedStrip(d.TotalPages(), 1).Some? ==>
      Pagination.Page(1) in Pagination.RenderedStrip(d.TotalPages(), 1).value
  {
    ViewFilter.PageBounds(d.FilteredData(), 1);
  }

  /** A page past the last one with at most one page left (as when a refresh
      shrinks the filtered list while a later page is shown): the table is
      empty and no strip is rendered, so neither a page number nor
      Previous/Next can be clicked to get back; only a filter click or a
      search resets the page. */
  lemma StuckPastLastPage(d: CryptoDashboard)
    requires d.TotalPages() <= 1 < d.currentPage
    ensures d.PaginatedData() == []
    ensures Pagination.RenderedStrip(d.TotalPages(), d.currentPage).None?
  {
    ViewFilter.PageBounds(d.FilteredData(), d.currentPage);
  }
}
