/** The state of the concerns listing page and the events that change it: the
    result of the initial fetch, live inserts, filter selection and page navigation. */
module ListingView {
  import opened Records
  import opened Filtering
  import opened Pagination
  import opened PageLinks
  import opened Rendering

  /** Error text used when the failed fetch carries no message. */
  const DefaultFetchError: string := "Error al cargar las inquietudes"

  /** How the bulk read of the concerns ended: with its data (which may be
      missing), or with an error carrying a message (which may be missing). */
  datatype FetchOutcome = Fetched(data: Option<seq<Inquietud>>) | Failed(message: Option<string>)

  /** The error text a failed fetch shows: its message, or the default one when
      the message is missing or empty. It is never empty, so it is always shown. */
  function FetchErrorText(message: Option<string>): (text: string)
    ensures text != ""
    ensures message.Some? && message.value != "" ==> text == message.value
    ensures message.None? || message.value == "" ==> text == DefaultFetchError
  {
    if message.Some? && message.value != "" then message.value else DefaultFetchError
  }

  class InquietudesPage {
    /** Every record held in memory, newest first. */
    var inquietudes: seq<Inquietud>
    /** The records that pass the selected filter. */
    var filtered: seq<Inquietud>
    /** The selected filter key. */
    var selectedFilter: string
    /** The page shown, numbered from 1. */
    var currentPage: int
    var isLoading: bool
    var error: Option<string>

    /** The filtered list is always recomputed from the list and the filter, and
        the page is one the handlers can reach. */
    ghost predicate Valid()
      reads this
    {
      && filtered == FilterInquietudes(inquietudes, selectedFilter)
      && ValidPage(currentPage, |filtered|)
    }

    function PageCount(): nat
      reads this
    {
      TotalPages(|filtered|)
    }

    /** What the page shows in this state. */
    function CurrentScreen(): Screen
      reads this
    {
      Render(filtered, currentPage, isLoading, error)
    }

    /** The pagination bar, and so its controls, exists only in this case. */
    predicate PaginationShown()
      reads this
    {
      !isLoading && !HasError(error) && PageCount() > 1
    }

    /** The state when the page mounts: nothing loaded yet, no filter, page 1, loading. */
    constructor ()
      ensures Valid()
      ensures inquietudes == [] && filtered == [] && selectedFilter == AllKey
      ensures currentPage == 1 && isLoading && error == None
    {
      inquietudes := [];
      filtered := [];
      selectedFilter := AllKey;
      currentPage := 1;
      isLoading := true;
      error := None;
    }

    /** The effect that runs whenever the list or the filter changes: recompute
        the filtered list and go back to the first page. */
    method RefreshFiltered()
      modifies this`filtered, this`currentPage
      ensures Valid()
      ensures filtered == FilterInquietudes(inquietudes, selectedFilter)
      ensures currentPage == 1
    {
      filtered := FilterInquietudes(inquietudes, selectedFilter);
      currentPage := 1;
    }

    /** The fetch starts: the spinner replaces the list. */
    method StartFetch()
      requires Valid()
      modifies this`isLoading
      ensures Valid() && isLoading
      ensures CurrentScreen().spinner && CurrentScreen().list == None
    {
      isLoading := true;
    }

    /** The fetch ends. On success the list becomes the returned data (or the empty
        list when there is none), the error is cleared and the list effect runs; on
        failure the error text is set and the list is kept. Loading ends either way. */
    method FinishFetch(outcome: FetchOutcome)
      requires Valid()
      modifies this`inquietudes, this`filtered, this`currentPage, this`isLoading, this`error
      ensures Valid() && !isLoading
      ensures outcome.Fetched? ==>
        && inquietudes == outcome.data.GetOr([])
        && error == None
        && filtered == FilterInquietudes(inquietudes, selectedFilter)
        && currentPage == 1
      ensures outcome.Failed? ==>
        && error == Some(FetchErrorText(outcome.message))
        && inquietudes == old(inquietudes) && filtered == old(filtered) && currentPage == old(currentPage)
      ensures outcome.Fetched? ==> CurrentScreen().errorCard == None && CurrentScreen().list.Some?
      ensures outcome.Failed? ==> CurrentScreen().errorCard.Some? && CurrentScreen().list == None && !PaginationShown()
      ensures outcome == Fetched(Some([])) || outcome == Fetched(None) ==>
        CurrentScreen().list == Some(EmptyNotice(EmptyNoticeText)) && CurrentScreen().pagination == None
    {
      match outcome
      case Fetched(data) =>
        inquietudes := data.GetOr([]);
        error := None;
        isLoading := false;
        RefreshFiltered();
      case Failed(message) =>
        error := Some(FetchErrorText(message));
        isLoading := false;
    }

    /** A record arrives on the live feed: it goes in front of the list and the
        list effect runs, so it is listed first exactly when it passes the filter. */
    method ReceiveInsert(record: Inquietud)
      requires Valid()
      modifies this`inquietudes, this`filtered, this`currentPage
      ensures Valid()
      ensures inquietudes == [record] + old(inquietudes)
      ensures |inquietudes| == |old(inquietudes)| + 1
      ensures filtered == (if Matches(record, selectedFilter) then [record] else []) + old(filtered)
      ensures currentPage == 1
    {
      inquietudes := [record] + inquietudes;
      FilterPrepend(record, old(inquietudes), selectedFilter);
      RefreshFiltered();
    }

    /** A filter key is chosen in the selector. Choosing the key already selected
        changes no state, so the effect does not run and the page stays. */
    method SelectFilter(key: string)
      requires Valid()
      modifies this`selectedFilter, this`filtered, this`currentPage
      ensures Valid()
      ensures selectedFilter == key
      ensures filtered == FilterInquietudes(inquietudes, key)
      ensures key != old(selectedFilter) ==> currentPage == 1
      ensures key == old(selectedFilter) ==> currentPage == old(currentPage)
    {
      if key != selectedFilter {
        selectedFilter := key;
        RefreshFiltered();
      }
    }

    /** The "previous" control is clicked. It exists only with the pagination bar
        and does nothing while disabled; otherwise it moves back one page. */
    method ClickPrevious()
      requires Valid()
      modifies this`currentPage
      ensures Valid()
      ensures old(PaginationShown()) && !PrevDisabled(old(currentPage)) ==>
        currentPage == PrevPage(old(currentPage)) == old(currentPage) - 1
      ensures !(old(PaginationShown()) && !PrevDisabled(old(currentPage))) ==> currentPage == old(currentPage)
    {
      if PaginationShown() && !PrevDisabled(currentPage) {
        currentPage := PrevPage(currentPage);
      }
    }

    /** The "next" control is clicked. It exists only with the pagination bar and
        does nothing while disabled; otherwise it moves forward one page. */
    method ClickNext()
      requires Valid()
      modifies this`currentPage
      ensures Valid()
      ensures old(PaginationShown()) && !NextDisabled(old(currentPage), PageCount()) ==>
        currentPage == NextPage(old(currentPage), PageCount()) == old(currentPage) + 1
      ensures !(old(PaginationShown()) && !NextDisabled(old(currentPage), PageCount())) ==>
        currentPage == old(currentPage)
    {
      if PaginationShown() && !NextDisabled(currentPage, PageCount()) {
        currentPage := NextPage(currentPage, PageCount());
      }
    }

    /** A numbered button of the page strip is clicked: that page becomes current.
        Only pages the strip shows as buttons can be clicked. */
    method ClickPage(page: int)
      requires Valid()
      modifies this`currentPage
      ensures Valid()
      ensures old(PaginationShown()) && PageButton(page, page == old(currentPage)) in RenderedLinks(old(currentPage), PageCount()) ==>
        currentPage == page && 1 <= page <= PageCount()
      ensures !(old(PaginationShown()) && PageButton(page, page == old(currentPage)) in RenderedLinks(old(currentPage), PageCount())) ==>
        currentPage == old(currentPage)
    {
      if PaginationShown() && PageButton(page, page == currentPage) in RenderedLinks(currentPage, PageCount()) {
        currentPage := page;
      }
    }
  }
}
