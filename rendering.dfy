/** What the listing page puts on screen for a given view state. */
module Rendering {
  import opened Records
  import opened Pagination
  import opened PageLinks

  /** Text of the card shown when the current page has no records. */
  const EmptyNoticeText: string := "No hay inquietudes para mostrar."

  /** JavaScript truthiness of the error state: `null` and `""` both hide the error. */
  predicate HasError(error: Option<string>) {
    error.Some? && error.value != ""
  }

  /** The record count next to the filter, with "(Página c de t)" when there is more than one page. */
  datatype Counter = Counter(count: nat, noun: string, pageOf: Option<(int, nat)>)

  /** The list area: the notice card, or one card per record of the current page. */
  datatype ListBody = EmptyNotice(text: string) | Cards(items: seq<Inquietud>)

  /** The pagination bar: previous control, page strip, next control. */
  datatype PaginationBar = PaginationBar(prevDisabled: bool, links: seq<PageLink>, nextDisabled: bool)

  /** Everything on the page that depends on the view state. */
  datatype Screen = Screen(
    counter: Counter,
    spinner: bool,
    errorCard: Option<string>,
    list: Option<ListBody>,
    pagination: Option<PaginationBar>)

  function CounterFor(filtered: seq<Inquietud>, current: int): (c: Counter)
    ensures c.count == |filtered|
    ensures c.noun == if |filtered| == 1 then "inquietud" else "inquietudes"
    ensures c.pageOf.Some? <==> TotalPages(|filtered|) > 1
    ensures c.pageOf.Some? ==> c.pageOf.value == (current, TotalPages(|filtered|))
    ensures ValidPage(current, |filtered|) && c.pageOf.Some? ==>
      2 <= c.pageOf.value.1 && 1 <= c.pageOf.value.0 <= c.pageOf.value.1
    ensures c.pageOf.Some? ==> ItemsPerPage < c.count
  {
    var total := TotalPages(|filtered|);
    Counter(|filtered|, if |filtered| == 1 then "inquietud" else "inquietudes",
            if total > 1 then Some((current, total)) else None)
  }

  /** The screen for a filtered list, a current page, the loading flag and the error. */
  function Render(filtered: seq<Inquietud>, current: int, isLoading: bool, error: Option<string>): (s: Screen)
    ensures s.counter == CounterFor(filtered, current)
    ensures s.spinner == isLoading
    ensures s.errorCard.Some? <==> HasError(error)
    ensures s.errorCard.Some? ==> s.errorCard == error
    ensures s.list.Some? <==> !isLoading && !HasError(error)
    ensures s.list.Some? ==> (s.list.value.EmptyNotice? <==> PageSlice(filtered, current) == [])
    ensures s.list.Some? && s.list.value.EmptyNotice? ==> s.list.value.text == EmptyNoticeText
    ensures s.list.Some? && s.list.value.Cards? ==>
      s.list.value.items == PageSlice(filtered, current) && 0 < |s.list.value.items| <= ItemsPerPage
    ensures s.pagination.Some? <==> s.list.Some? && TotalPages(|filtered|) > 1
    ensures s.pagination.Some? ==> s.pagination.value == PaginationBar(
      PrevDisabled(current), RenderedLinks(current, TotalPages(|filtered|)),
      NextDisabled(current, TotalPages(|filtered|)))
  {
    var total := TotalPages(|filtered|);
    var page := PageSlice(filtered, current);
    var listShown := !isLoading && !HasError(error);
    Screen(
      CounterFor(filtered, current),
      isLoading,
      if HasError(error) then error else None,
      if !listShown then None
      else if page == [] then Some(EmptyNotice(EmptyNoticeText))
      else Some(Cards(page)),
      if listShown && total > 1
      then Some(PaginationBar(PrevDisabled(current), RenderedLinks(current, total), NextDisabled(current, total)))
      else None)
  }

  /** The current pages that the view's handlers can reach: 1 up to the page count (1 when there are no pages). */
  predicate ValidPage(current: int, n: nat) {
    1 <= current <= Max(1, TotalPages(n))
  }

  /** On a reachable page the notice card appears exactly when the filtered list
      is empty, and otherwise the cards are that page's slice of the list. */
  lemma NoticeExactlyWhenEmpty(filtered: seq<Inquietud>, current: int, isLoading: bool, error: Option<string>)
    requires ValidPage(current, |filtered|)
    requires !isLoading && !HasError(error)
    ensures Render(filtered, current, isLoading, error).list == Some(EmptyNotice(EmptyNoticeText)) <==> filtered == []
    ensures filtered != [] ==>
      Render(filtered, current, isLoading, error).list
        == Some(Cards(filtered[(current - 1) * ItemsPerPage..Min(current * ItemsPerPage, |filtered|)]))
  {
    if filtered != [] {
      PageSliceBounds(filtered, current);
    }
  }

  /** A shown pagination bar has at least two pages, at most seven strip entries,
      buttons for both ends and the current page, and exactly one of its two
      controls disabled when on the first or last page. */
  lemma PaginationBarShape(filtered: seq<Inquietud>, current: int, isLoading: bool, error: Option<string>)
    requires ValidPage(current, |filtered|)
    requires Render(filtered, current, isLoading, error).pagination.Some?
    ensures var bar := Render(filtered, current, isLoading, error).pagination.value;
      var total := TotalPages(|filtered|);
      && 2 <= total
      && |bar.links| <= 7
      && PageButton(1, current == 1) in bar.links
      && PageButton(total, current == total) in bar.links
      && PageButton(current, true) in bar.links
      && !(bar.prevDisabled && bar.nextDisabled)
  {
    var total := TotalPages(|filtered|);
    AtMostSevenLinks(current, total);
    EndsAndCurrentShown(current, total);
  }
}
