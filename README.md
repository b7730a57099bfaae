# Concerns listing page: filter, pagination and view state

This project models the client-side list handling of the concerns ("inquietudes")
listing page of a labor-union slate's website. The page keeps an in-memory list of
concern records `{id, tema, mensaje, created_at}` that come from one bulk read plus
a live feed of inserted records. It narrows the list by a category key, cuts it into
pages of ten, and draws a page-number strip with elision and previous/next controls.
It also shows a spinner while loading and an error card when the read fails.

Modules:

- `Records`: the `Inquietud` record (all fields text) and an `Option` wrapper.
- `Filtering`: the key-to-label map, label resolution with fall-back to the key, and the
  filter, with lemmas that it selects exactly the matching records in their order.
- `Pagination`: the page size, `Math.ceil(n / 10)` as `(n + 9) / 10`, `Array.prototype.slice`
  with its negative-bound and clamping rules, the page slice, and the previous/next
  handlers; lemmas that the page count is a ceiling, pages are non-empty within range,
  each record sits on page `i / 10 + 1`, and the pages concatenate back to the list.
- `PageLinks`: the page strip. Each page gives a button, an ellipsis or `null`, and the
  `null`s are dropped. Lemmas cover the exact button/ellipsis/nothing conditions, ascending
  pages (so at most one entry per page), ends and current page always shown, gaps always
  marked by an ellipsis, and at most seven entries.
- `Rendering`: the screen as a value: counter, spinner, error card, list body or notice
  card, and pagination bar, each with the condition under which it appears.
- `ListingView`: the view state as a class `InquietudesPage` whose methods are the
  page's events. These are fetch start and end, live insert, filter selection, and clicks
  on previous, next and a page button. `Valid()` says the filtered list is always the
  filter of the list and the current page is reachable, and each method preserves it.

The filter/page-reset effect that React runs after the list or the filter changes is
folded into the event methods that change them (`RefreshFiltered`). A filter selection
that repeats the key already selected is a React state bail-out. Nothing re-renders
then, so the effect does not run and the page is kept; `SelectFilter` models that.
A live insert and a successful fetch both store a new array, so for them the effect
always runs. Click handlers are modelled with the conditions under which their control
exists and is enabled. The previous and next controls exist only with the pagination
bar, and a disabled control ignores clicks. With those guards, navigation cannot leave
`[1, max(1, totalPages)]`. A next click with zero pages would set page 0, but that cannot
happen through the page because the bar is not drawn then.

The backend client and the live channel are not modelled. A fetch result and an inserted
record are plain inputs to `FinishFetch` and `ReceiveInsert`.

## Model

| member | source | states |
|---|---|---|
| `Filtering.LabelFor` | src/pages/Inquietudes.tsx:24-31 | a key in the label map resolves to its (non-empty) label; any other key resolves to itself |
| `Filtering.KeepTema` | src/pages/Inquietudes.tsx:116 | the kept records are records of the list whose `tema` is the wanted label, and there are no more of them than records |
| `Filtering.FilterInquietudes` | src/pages/Inquietudes.tsx:110-119 | key `"todos"` returns the list unchanged; any other key returns only records of the list whose `tema` is the key's resolved label |
| `Filtering.KeepTemaAppend` | src/pages/Inquietudes.tsx:116 | filtering distributes over concatenation, so the relative order of kept records is the list's order |
| `Filtering.KeepTemaCount` | src/pages/Inquietudes.tsx:116 | each record with the label is kept exactly as many times as it occurs; a record without it is never kept |
| `Filtering.KeepTemaIdempotent` | src/pages/Inquietudes.tsx:116 | filtering an already filtered list by the same label changes nothing |
| `Filtering.FilterExactly` | src/pages/Inquietudes.tsx:110-119 | a key selects exactly the records that match it, with their multiplicity, and selection distributes over any split of the list |
| `Filtering.FilterPrepend` | src/pages/Inquietudes.tsx:110-119 | with a record put in front, the filtered list gains that record in front exactly when it matches the key, and is otherwise the old filtered list |
| `Filtering.FilterIdempotent` | src/pages/Inquietudes.tsx:110-119 | filtering twice with one key equals filtering once |
| `Pagination.TotalPages` | src/pages/Inquietudes.tsx:86 | the page count is the least number of ten-record pages that hold `n` records, and it is 0 exactly for the empty list |
| `Pagination.SliceBound` | src/pages/Inquietudes.tsx:82 | a slice bound inside `[0, len]` is kept, a negative one counts back from the end (floored at 0), and one past the end becomes `len` |
| `Pagination.Slice` | src/pages/Inquietudes.tsx:82 | the slice is never longer than the list, and for `0 <= start <= end` it is the sub-list between the bounds clamped to the length |
| `Pagination.PageSlice` | src/pages/Inquietudes.tsx:79-83 | any page holds at most ten records, and page `p >= 1` is the list from `(p-1)*10` to `min(p*10, n)` |
| `Pagination.PageSliceBounds` | src/pages/Inquietudes.tsx:79-86 | a page from 1 to the page count is non-empty and starts exactly at `(p-1)*10`; a page after the last is empty |
| `Pagination.PagesUpToPrefix` | src/pages/Inquietudes.tsx:79-86 | pages 1..k written one after another are the first `min(10k, n)` records |
| `Pagination.PagesCoverList` | src/pages/Inquietudes.tsx:79-86 | pages 1..totalPages concatenate back to the whole filtered list |
| `Pagination.PageOfIndex` | src/pages/Inquietudes.tsx:79-86 | the record at index `i` is on page `i/10 + 1`, a page within the page count, at position `i % 10` |
| `Pagination.PrevPage` | src/pages/Inquietudes.tsx:242-243 | the previous handler never goes below page 1, moves back one page from any later page, and leaves the page as it is exactly when the control is disabled (page 1) |
| `Pagination.NextPage` | src/pages/Inquietudes.tsx:284-285 | the next handler never goes past the last page, moves forward one page before it, stays at least 1 from a valid page, and leaves the page as it is exactly when the control is disabled (last page) |
| `PageLinks.LinkFor` | src/pages/Inquietudes.tsx:253-277 | a page's strip entry carries that page number, and a button is marked active exactly for the current page |
| `PageLinks.PageSlots` | src/pages/Inquietudes.tsx:251 | the mapped array has one slot per page 1..totalPages, slot `i` being page `i + 1`'s entry |
| `PageLinks.Present` | src/pages/Inquietudes.tsx:251-278 | dropping the `null` slots never lengthens the strip |
| `PageLinks.PresentOfSlots` | src/pages/Inquietudes.tsx:251-278 | dropping `null`s from the slots of consecutive pages keeps every non-null entry, adds nothing, and leaves pages strictly ascending |
| `PageLinks.RenderedLinks` | src/pages/Inquietudes.tsx:251-278 | the rendered strip is in strictly ascending page order within 1..totalPages and holds exactly the non-null entries |
| `PageLinks.LinkShown` | src/pages/Inquietudes.tsx:253-277 | page `p` gets a button iff it is 1, the last or within one of the current page; else an ellipsis iff it is two away; else no entry at all |
| `PageLinks.EndsAndCurrentShown` | src/pages/Inquietudes.tsx:253-269 | page 1, the last page and a valid current page always get buttons, and only the current page's button is active |
| `PageLinks.GapsMarked` | src/pages/Inquietudes.tsx:253-277 | a page left out lies between page 1 and an ellipsis at current-2, or between an ellipsis at current+2 and the last page |
| `PageLinks.AtMostSevenLinks` | src/pages/Inquietudes.tsx:251-278 | the strip never has more than seven entries, whatever the page count |
| `Rendering.CounterFor` | src/pages/Inquietudes.tsx:170-177 | the counter shows the filtered count with singular "inquietud" only for one record, and "(Página c de t)" exactly when there is more than one page, which needs more than ten records; on a reachable page it never reads c > t |
| `Rendering.Render` | src/pages/Inquietudes.tsx:180-296 | the counter is `CounterFor`'s; spinner iff loading; error card iff the error is truthy; list iff neither; notice card iff the page slice is empty; cards are the page slice of at most ten; pagination bar iff the list shows and there are over one page, with its controls disabled at the ends |
| `Rendering.NoticeExactlyWhenEmpty` | src/pages/Inquietudes.tsx:197-207 | on a reachable page the "No hay inquietudes para mostrar." card shows exactly when the filtered list is empty, and otherwise the cards are records `(p-1)*10 .. min(p*10, n)` |
| `Rendering.PaginationBarShape` | src/pages/Inquietudes.tsx:235-291 | a drawn bar has at least two pages, at most seven strip entries, buttons for both ends and the current page, and never both controls disabled |
| `ListingView.FetchErrorText` | src/pages/Inquietudes.tsx:104 | the error text is the error's message when it has a non-empty one and the default "Error al cargar las inquietudes" otherwise, so it is never empty |
| `ListingView.InquietudesPage.constructor` | src/pages/Inquietudes.tsx:36-41 | the page mounts with no records, filter "todos", page 1, loading and no error |
| `ListingView.InquietudesPage.RefreshFiltered` | src/pages/Inquietudes.tsx:73-76 | the effect recomputes the filtered list from the list and the filter and resets the page to 1 |
| `ListingView.InquietudesPage.StartFetch` | src/pages/Inquietudes.tsx:90 | starting the fetch sets loading, which shows the spinner and hides the list |
| `ListingView.InquietudesPage.FinishFetch` | src/pages/Inquietudes.tsx:88-108 | success stores the data or `[]`, clears the error, refilters and resets to page 1; failure stores the error text and keeps the list; loading ends either way; an empty result shows the notice card and no pagination |
| `ListingView.InquietudesPage.ReceiveInsert` | src/pages/Inquietudes.tsx:59-63 | a live record goes in front of an otherwise unchanged list one longer, is listed first iff it passes the filter, and the page resets to 1 |
| `ListingView.InquietudesPage.SelectFilter` | src/pages/Inquietudes.tsx:155 | a new key is stored, the list is refiltered by it and the page resets to 1; re-selecting the current key keeps the page |
| `ListingView.InquietudesPage.ClickPrevious` | src/pages/Inquietudes.tsx:242-243 | with the bar drawn and the control enabled the page goes back by one; otherwise nothing changes; the page stays reachable |
| `ListingView.InquietudesPage.ClickNext` | src/pages/Inquietudes.tsx:284-285 | with the bar drawn and the control enabled the page goes forward by one; otherwise nothing changes; the page stays reachable |
| `ListingView.InquietudesPage.ClickPage` | src/pages/Inquietudes.tsx:263 | clicking a page button that the strip shows makes that page (within 1..totalPages) current; nothing else changes |

## Left out

- The backend client, the bulk read request and the live channel's subscribe and `removeChannel` calls are external. A fetch outcome and an inserted record are inputs to `FinishFetch` and `ReceiveInsert`. The ordering of the bulk read (`created_at` descending) is the backend's, so no ordering of the list is claimed.
- Interleaving of the initial fetch with early live inserts is not modelled. Any order of the event methods is allowed and each keeps `Valid()`, but the page has no ordering logic between them.
- React's render/effect split, which briefly renders the new list with the old filtered list before the effect runs, is not modelled. The effect is applied as part of the event that triggers it.
- `LabelFor`: keys inherited from JavaScript's object prototype (such as `"constructor"` or `"toString"`) would look up a function there and match no record. The selector never offers them, so the model treats every key outside the six labels as unmapped.
- `ReceiveInsert`: the live payload is cast to a record without any check of its shape. Only well-formed records with the four string fields are modelled.
- `FetchErrorText`: a thrown value without a `message` property is modelled as a missing message. A thrown value whose `message` is not a string is not modelled.
- Date formatting (`formatDate`) is locale-dependent, so it is not modelled. The `created_at` field is kept as opaque text.
- Scrolling to the top on mount, console logging, and all markup and styling are outside the model.
- The submission form, the landing-page sections, the header's menu toggle and the database setup scripts are not part of this model.
