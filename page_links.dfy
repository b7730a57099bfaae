/** The page-number strip of the pagination bar: each page becomes a numbered
    button, an ellipsis, or nothing, depending on its distance from the current page. */
module PageLinks {
  import opened Records

  /** What the strip shows for one page. */
  datatype PageLink = PageButton(page: int, active: bool) | Ellipsis(page: int)

  /** Pages that get a numbered button: the first, the last, and the current one with its neighbours. */
  predicate ButtonShown(page: int, current: int, total: int) {
    page == 1 || page == total || (current - 1 <= page && page <= current + 1)
  }

  /** The strip entry for one page, or `None` where the page yields `null`. */
  function LinkFor(page: int, current: int, total: int): (r: Option<PageLink>)
    ensures r.Some? ==> r.value.page == page
    ensures r.Some? && r.value.PageButton? ==> (r.value.active <==> page == current)
  {
    if ButtonShown(page, current, total) then Some(PageButton(page, current == page))
    else if page == current - 2 || page == current + 2 then Some(Ellipsis(page))
    else None
  }

  /** The array the strip maps over: one slot for each page `1..total`. */
  function PageSlots(current: int, total: nat): (slots: seq<Option<PageLink>>)
    ensures |slots| == total
    ensures forall i :: 0 <= i < total ==> slots[i] == LinkFor(i + 1, current, total)
  {
    seq(total, i requires 0 <= i < total => LinkFor(i + 1, current, total))
  }

  /** The slots that are not `null`, in order (what ends up on screen). */
  function Present(slots: seq<Option<PageLink>>): (r: seq<PageLink>)
    ensures |r| <= |slots|
  {
    if slots == [] then []
    else match slots[0]
      case Some(l) => [l] + Present(slots[1..])
      case None => Present(slots[1..])
  }

  /** Strictly increasing page numbers, so no page appears twice. */
  predicate Ascending(r: seq<PageLink>) {
    forall i, j :: 0 <= i < j < |r| ==> r[i].page < r[j].page
  }

  /** Dropping the empty slots of a run of slots for pages `k, k+1, ...` keeps
      every non-empty entry, adds nothing, and leaves the pages ascending. */
  lemma {:induction false} PresentOfSlots(slots: seq<Option<PageLink>>, k: int, current: int, total: int)
    requires forall i :: 0 <= i < |slots| ==> slots[i] == LinkFor(k + i, current, total)
    ensures forall l :: l in Present(slots) ==>
      k <= l.page < k + |slots| && LinkFor(l.page, current, total) == Some(l)
    ensures forall p :: k <= p < k + |slots| && LinkFor(p, current, total).Some? ==>
      LinkFor(p, current, total).value in Present(slots)
    ensures Ascending(Present(slots))
  {
    if slots != [] {
      var rest := slots[1..];
      PresentOfSlots(rest, k + 1, current, total);
      assert slots[0] == LinkFor(k, current, total);
    }
  }

  /** The links the pagination bar shows between its previous and next controls. */
  function RenderedLinks(current: int, total: nat): (r: seq<PageLink>)
    ensures Ascending(r)
    ensures forall l :: l in r ==> 1 <= l.page <= total && LinkFor(l.page, current, total) == Some(l)
    ensures forall p :: 1 <= p <= total && LinkFor(p, current, total).Some? ==>
      LinkFor(p, current, total).value in r
  {
    var slots := PageSlots(current, total);
    PresentOfSlots(slots, 1, current, total);
    Present(slots)
  }

  /** Page `p` gets a button exactly when it is the first, the last, or within one
      of the current page; otherwise an ellipsis exactly when it is two away from
      the current page; otherwise nothing at all. */
  lemma LinkShown(current: int, total: nat, p: int)
    requires 1 <= p <= total
    ensures PageButton(p, p == current) in RenderedLinks(current, total) <==> ButtonShown(p, current, total)
    ensures Ellipsis(p) in RenderedLinks(current, total) <==>
      !ButtonShown(p, current, total) && (p == current - 2 || p == current + 2)
    ensures (forall l :: l in RenderedLinks(current, total) ==> l.page != p) <==>
      !ButtonShown(p, current, total) && p != current - 2 && p != current + 2
  {
    var r := RenderedLinks(current, total);
    if LinkFor(p, current, total).Some? {
      assert LinkFor(p, current, total).value in r;
    }
  }

  /** The first page and the last page always get a button, and so does a valid
      current page, which is the one active button. */
  lemma EndsAndCurrentShown(current: int, total: nat)
    requires 1 <= total
    ensures PageButton(1, current == 1) in RenderedLinks(current, total)
    ensures PageButton(total, current == total) in RenderedLinks(current, total)
    ensures 1 <= current <= total ==> PageButton(current, true) in RenderedLinks(current, total)
    ensures forall l :: l in RenderedLinks(current, total) && l.PageButton? && l.active ==> l.page == current
  {
    LinkShown(current, total, 1);
    LinkShown(current, total, total);
    if 1 <= current <= total {
      LinkShown(current, total, current);
    }
  }

  /** A page that is left out lies in a gap marked by the ellipsis two pages
      before or after the current one. */
  lemma GapsMarked(current: int, total: nat, p: int)
    requires 1 <= current <= total && 1 <= p <= total
    requires LinkFor(p, current, total).None?
    ensures (1 < p < current - 2 && Ellipsis(current - 2) in RenderedLinks(current, total))
         || (current + 2 < p < total && Ellipsis(current + 2) in RenderedLinks(current, total))
  {
    if p < current {
      LinkShown(current, total, current - 2);
    } else {
      LinkShown(current, total, current + 2);
    }
  }

  /** An ascending run of links whose pages all lie in `pages` is no longer than `pages` has members. */
  lemma {:induction false} AscendingWithin(r: seq<PageLink>, pages: set<int>)
    requires Ascending(r)
    requires forall l :: l in r ==> l.page in pages
    ensures |r| <= |pages|
  {
    if r != [] {
      var rest := r[1..];
      var others := pages - {r[0].page};
      forall l | l in rest ensures l.page in others {
        var j :| 0 <= j < |rest| && rest[j] == l;
        assert r[j + 1] == l;
      }
      AscendingWithin(rest, others);
    }
  }

  /** The strip never shows more than seven entries, however many pages there are. */
  lemma AtMostSevenLinks(current: int, total: nat)
    ensures |RenderedLinks(current, total)| <= 7
  {
    var candidates := {1, total, current - 2, current - 1, current, current + 1, current + 2};
    AscendingWithin(RenderedLinks(current, total), candidates);
  }
}
