# Paging, infinite scroll and a todo store, modelled in Dafny

This project models two small cores of a set of React demo applications.

1. **The board application** (`board-ts-app`). The post board (`BoardList`)
   is paginated. It reads a page number from the route `/board/:pageNo`,
   fetches that page's ten posts by offset plus the whole collection for its
   total, shows a paginator with `ceil(total/10)` pages, and navigates when a
   page is clicked. The photo gallery (`PhotoList`) scrolls without end. A
   fetch gate fetches page 1 on mount. It then moves to the next page each
   time an observer reports a sentinel element as visible. It ignores the
   first such report, and any report that comes while a fetch is in flight.
2. **The todo store** (`todo-zustand`). It holds a list of
   `{id, text, completed}` and has three actions: add, toggle and remove.

Files:

- `Wrappers.dfy`: `Option`. `None` also stands for JavaScript's NaN.
- `ParseInt.dfy`: `parseInt(text, 10)` and the decimal rendering `${n}`,
  with the round trip between them.
- `BoardList.dfy`: the routes, the current page, the request window, the
  page count, the paginator's index in both directions, and the component's
  state and screen. These are pure functions with lemmas. The state keeps
  the page the route names, and each page response carries the page it was
  requested for, so a stale screen can be shown.
- `PhotoList.dfy`: the class `FetchGate`. Its fields are `photos`, `page`,
  `loading` and `didMount`, updated in place by `Trigger`, `FetchSucceeded`
  and `FetchFailed`. Four client methods state the gallery's scenarios,
  proved against the class's contracts.
- `TodoStore.dfy`: the three actions as functions over `seq<Todo>`, with
  lemmas relating them.

Events stand in for the network and the browser; they are not modelled.
The observer's callback becomes `Trigger(visible)`. The outcome of the
photo request becomes `FetchSucceeded(items)` or `FetchFailed()`. The id
that the store takes from `Date.now()` becomes a parameter.

In three places the code behaves differently from what a reader might
expect. The model follows the code in each:

- A page parameter with no digits gives NaN, not page 1. Parameters such as
  `"0"` or `"-3"` give 0 and -3.
- A failed photo fetch is not retried for the same page. The next accepted
  trigger moves on to the following page, because `page` is incremented
  unconditionally (`FailedPageSkippedScenario`).
- A failed post fetch on the board is not caught and not reported.

## Model

| member | source | states |
|---|---|---|
| `BoardList.Route` | board-ts-app/src/App.tsx:51-58 | a board screen is chosen only for `/board/` followed by a non-empty segment without `/`, and carries that segment as `pageNo`; `/board` redirects to `/board/1`; `/photo` shows the gallery |
| `BoardList.RouteBoardSegment` | board-ts-app/src/App.tsx:54 | every path `/board/<segment>`, with a non-empty segment free of `/`, reaches the board with that segment as `pageNo` |
| `BoardList.CurrentPage` | board-ts-app/src/App.tsx:69 | an absent or empty `pageNo` resolves to page 1 |
| `BoardList.Start` | board-ts-app/src/App.tsx:80-82 | the offset `(currentPage - 1) * 10` is a multiple of 10, and non-negative for pages from 1; `WindowPartition` and `WindowsAdjacent` state how the windows tile the offsets |
| `BoardList.PageRequests` | board-ts-app/src/App.tsx:76-97 | the page effect issues exactly two requests for the current page: one page of 10 starting at `Start(currentPage)`, whose start is NaN exactly when the page is, then the whole collection |
| `BoardList.CurrentPageOfRendered` | board-ts-app/src/App.tsx:69 | a parameter that is a decimal number n, possibly followed by text that does not start with a digit, resolves to page n |
| `ParseInt.Parse` | board-ts-app/src/App.tsx:69 | a number is read only from text that holds a digit; `ParseDecimal` and `ParseDecimalNegative` give the value of every text whose white space and optional sign are followed by a digit, and `ParseNotANumber` gives NaN for every other text; `ParseNoDigits` and `ParseExamples` are instances |
| `ParseInt.ParseDecimal` | board-ts-app/src/App.tsx:69 | white space, an optional `+`, a non-empty run of digits (leading zeros allowed) and a tail that does not start with a digit read as the value of the run |
| `ParseInt.ParseDecimalNegative` | board-ts-app/src/App.tsx:69 | with a `-` between the white space and the digits the reading is the unsigned reading negated |
| `ParseInt.ParseNotANumber` | board-ts-app/src/App.tsx:69 | when the text after the white space and at most one sign does not start with a digit, the result is NaN, whatever digits come later (`"x5"`, `"-x1"`, `"+-5"`) |
| `ParseInt.ParseExamples` | board-ts-app/src/App.tsx:69 | `"  007x"` reads 7, `"+5"` reads 5, `"0x10"` reads 0 (radix 10), and `"- 5"` is NaN because the sign does not touch the digits |
| `ParseInt.ParseHexPrefix` | board-ts-app/src/App.tsx:69 | with radix 10, any text starting `0x` reads 0 |
| `ParseInt.ParseShow` | board-ts-app/src/App.tsx:69 | `parseInt` of the decimal rendering of n, with any non-digit tail, gives n |
| `ParseInt.ParseNegative` | board-ts-app/src/App.tsx:69 | a leading minus sign is kept: `"-n"` parses to -n, so the page is not forced to be positive |
| `ParseInt.ParseNoDigits` | board-ts-app/src/App.tsx:69 | text with no digits parses to NaN (`None`) |
| `ParseInt.ShowValue` | board-ts-app/src/App.tsx:101-102 | the digits written for a page number have that number as their value |
| `ParseInt.Show` | board-ts-app/src/App.tsx:102 | the rendering of a page number is a non-empty run of digits with no leading zero unless the number is 0; `ShowValue` and `ParseShow` give its value back |
| `BoardList.PageRequestsForRenderedPage` | board-ts-app/src/App.tsx:76-97 | reaching page n >= 1 by its decimal parameter starts exactly one page fetch, with start (n-1)*10 >= 0 and limit 10, plus one fetch of the whole collection |
| `BoardList.WindowPartition` | board-ts-app/src/App.tsx:80-82 | offset i falls in the window of page p >= 1 exactly when p = i/10 + 1, so the page windows are pairwise disjoint and cover every offset |
| `BoardList.WindowsAdjacent` | board-ts-app/src/App.tsx:80-82 | the window of page p + 1 begins where the window of page p ends |
| `BoardList.PageCount` | board-ts-app/src/App.tsx:127 | the page count n satisfies n*10 >= total and, when positive, (n-1)*10 < total, which makes it the ceiling of total/10 |
| `BoardList.PageCountLeast` | board-ts-app/src/App.tsx:127 | any n with n*10 >= total is at least the page count |
| `BoardList.PageCountExamples` | board-ts-app/src/App.tsx:127 | 23 posts give 3 pages, 100 give 10, and 0 give 0 |
| `BoardList.ForcePage` | board-ts-app/src/App.tsx:128 | the highlighted 0-based index is defined exactly when the page is, and is one less than it |
| `BoardList.SelectedPage` | board-ts-app/src/App.tsx:101 | the page chosen by a click on index k is at least 1 and is highlighted as index k; `ClickRoundTrip` closes the loop through the route |
| `BoardList.ClickPath` | board-ts-app/src/App.tsx:102 | the click navigates to `/board/` followed by a non-empty run of digits; `ClickRoundTrip` and `HighlightedClickStays` state where it leads |
| `BoardList.ClickRoundTrip` | board-ts-app/src/App.tsx:100-102 | clicking index k navigates to a path that routes to the board with a parameter resolving to page k+1, whose highlighted index is k again |
| `BoardList.HighlightedClickStays` | board-ts-app/src/App.tsx:100-128 | on page p >= 1 the highlighted index is p-1 >= 0, and clicking it navigates back to page p |
| `BoardList.ForcePageInRange` | board-ts-app/src/App.tsx:127-128 | the highlighted index is a valid paginator index exactly when p >= 1 and the page's window starts before the total |
| `BoardList.InitialBoard` | board-ts-app/src/App.tsx:68-72 | the board mounts on the page its route names with no posts and a total of 0, so it renders the loading message |
| `BoardList.Navigated` | board-ts-app/src/App.tsx:69-97 | moving to another page changes only the page; posts and total are kept until responses land (`StalePageShown`). In the code the effect keyed on `currentPage` then issues `PageRequests` for the new page; the model does not represent the effect firing |
| `BoardList.PostsLoaded` | board-ts-app/src/App.tsx:84 | a page response replaces the posts with its data and changes nothing else; `PostsLoadedForgetsOld`, `ShowsLastResponse` and `StalePageShown` state its consequences |
| `BoardList.TotalLoaded` | board-ts-app/src/App.tsx:92 | the total response sets the total to the collection's length and changes nothing else; `LoadsCommute` orders it against a page response |
| `BoardList.PostsLoadedForgetsOld` | board-ts-app/src/App.tsx:84 | after a page response lands the posts are the response's, and the new state does not depend on the posts held before |
| `BoardList.LoadsCommute` | board-ts-app/src/App.tsx:95-96 | the page fetch and the total fetch give the same state in either completion order |
| `BoardList.Render` | board-ts-app/src/App.tsx:112-134 | the loading message is shown exactly when the total is 0; otherwise the held posts are listed with a paginator of `PageCount(total)` pages, at least one, highlighting currentPage-1 |
| `BoardList.ShowsLastResponse` | board-ts-app/src/App.tsx:84-121 | once the total is known, the screen lists exactly the posts of the last response to land; when that response answers the current page, the highlighted index is that page's |
| `BoardList.StalePageShown` | board-ts-app/src/App.tsx:76-128 | right after navigating from page 1 to page 2 the posts of page 1 are still listed while index 1 is highlighted; and when the page-1 response lands after the page-2 response, page 1's posts stay listed while page 2 is highlighted |
| `PhotoList.ConcatAppend` | board-ts-app/src/App.tsx:163 | appending a batch appends its photos after the photos of the earlier batches |
| `PhotoList.FetchGate.constructor` | board-ts-app/src/App.tsx:141-173 | the gallery mounts with no photos, at page 1, with the fetch of page 1 in flight and the first report not yet seen |
| `PhotoList.FetchGate.Trigger` | board-ts-app/src/App.tsx:192-204 | a report that is not visible, or that arrives while loading, changes nothing; the first accepted report only sets `didMount`; each later one increments page by exactly 1 and starts the fetch of that page; photos never change and page never decreases |
| `PhotoList.FetchGate.FetchSucceeded` | board-ts-app/src/App.tsx:152-169 | the old photos are followed by the fetched items in order; loading ends; page and didMount are unchanged; the invariant keeps photos equal to the successful batches in increasing page order |
| `PhotoList.FetchGate.FetchFailed` | board-ts-app/src/App.tsx:164-168 | photos, page and didMount are unchanged and loading ends |
| `PhotoList.VisibleOnMountScenario` | board-ts-app/src/App.tsx:175-204 | with the sentinel visible at mount and its report arriving while page 1 loads, the user's first scroll back starts no fetch and leaves the gate's log of fetched pages at [1]; the second scroll back starts the fetch of page 2, and only page 1's photos are shown |
| `PhotoList.MountReportConsumedScenario` | board-ts-app/src/App.tsx:175-202 | when the report at mount arrives after page 1 has landed, `didMount` consumes it without a fetch, and the user's first scroll back starts the fetch of page 2; the gate's log is then [1, 2] |
| `PhotoList.OverlappingTriggersScenario` | board-ts-app/src/App.tsx:194 | after page 2 starts loading, four reports alternating out of view and in view start no fetch; the photos are page 1's then page 2's and the gate's log is [1, 2] |
| `PhotoList.FailedPageSkippedScenario` | board-ts-app/src/App.tsx:164-198 | after page 1 fails, the first scroll back starts the fetch of page 2, only page 2's photos are shown, and the gate's log is [1, 2] |
| `TodoStore.AddTodo` | todo-zustand/src/store/todoStore.js:7-10 | for any list (the store starts from `InitialTodos`, the empty list of todoStore.js:4), the old list is kept as a prefix, followed by exactly one new entry `{id, text, completed: false}` |
| `TodoStore.ToggleTodo` | todo-zustand/src/store/todoStore.js:17-22 | length, order, ids and texts are kept; `completed` flips exactly on the entries with that id |
| `TodoStore.RemoveTodo` | todo-zustand/src/store/todoStore.js:25-28 | no entry with that id is left; the result is a subsequence of the list; every other entry is kept as many times as it occurred |
| `TodoStore.ToggleTwice` | todo-zustand/src/store/todoStore.js:20 | toggling the same id twice gives back the original list |
| `TodoStore.ToggleAbsent` | todo-zustand/src/store/todoStore.js:19-21 | toggling an id that no entry carries leaves the list unchanged |
| `TodoStore.TogglesCommute` | todo-zustand/src/store/todoStore.js:19-21 | toggles of two ids give the same list in either order |
| `TodoStore.RemoveAbsent` | todo-zustand/src/store/todoStore.js:27 | removing an id that no entry carries leaves the list unchanged |
| `TodoStore.RemoveIdempotent` | todo-zustand/src/store/todoStore.js:27 | removing an id twice is the same as removing it once |
| `TodoStore.RemoveAppended` | todo-zustand/src/store/todoStore.js:7-28 | removing the id of the last entry drops that entry along with the earlier ones that carry the id |
| `TodoStore.RemoveUndoesAdd` | todo-zustand/src/store/todoStore.js:7-28 | adding a todo under an id not in the list, then removing that id, restores the list |
| `TodoStore.RemoveAfterToggle` | todo-zustand/src/store/todoStore.js:17-28 | toggling an id before removing it does not change what remains |

## Left out

- The HTTP requests to the post and photo services (App.tsx:79-92, 155-162) are not modelled. They become the events above. What the server returns, how it slices the collection and how large the collection is are not part of the model.
- Failed photo fetches are logged with `console.error`. The log is I/O and is not modelled.
- Browser and UI machinery is not modelled. This covers creating and releasing the IntersectionObserver and its 10% threshold, `window.scrollTo` (App.tsx:106-109), the `navigate` call itself, ReactPaginate's internals and the JSX output.
- `ACCESS_KEY` is configuration read from the environment, and is not modelled.
- The board's two fetches are independent events. `LoadsCommute` shows that their completion order does not matter. `fetchPosts` has no error handling, so the model states no error behaviour for it.
- PhotoList.FetchGate.Trigger: an accepted report increments `page` and sets `loading` in one step. In the code they are separate: the observer callback calls `setPage(prev => prev + 1)` (App.tsx:198), `setLoading(true)` runs only later in the page effect's `fetchPhotos` (App.tsx:153, 171-173), and the ref reads the new value only after the effect that copies it (App.tsx:147-149). A second accepted report inside that window (setPage, render, effect, ref copy) could advance `page` twice while React batches the renders into a single fetch, skipping a page. The model does not capture that window; its `requested == PagesUpTo(page)` invariant holds only under the one-step reading.
- PhotoList.VisibleOnMountScenario: with one flag, the report sent at mount arrives while page 1 is loading and is dropped by the loading guard. The `didMount` rule then consumes the first report that arrives while idle, which is the user's first scroll back. In the code, `loadingRef` still reads false at that moment, so `didMountRef` consumes the report at mount and the first scroll back fetches page 2. `MountReportConsumedScenario` shows the code's order, in which the report at mount lands after page 1.
- BoardList.PostsLoaded: the code neither cleans up the page effect nor checks which page a response answers, and the model keeps that. A response for an earlier page that lands after the current page's response replaces the posts. The screen then pairs the old page's posts with the new page's index, and `StalePageShown` exhibits this. The model does not promise that the listed posts belong to the highlighted page.
- PhotoList.FetchGate.FetchSucceeded and FetchFailed require a fetch in flight: a completion event exists only for a fetch that was started. An in-flight fetch that completes after unmount is not modelled.
- `Date.now()` is not modelled; ids are parameters, and nothing assumes they are distinct.
- ParseInt.Parse and ParseInt.Show: JavaScript numbers are doubles. `Show` always writes plain digits, while `${n}` switches to exponent notation (`"1e+21"`) from 1e21 on; page numbers never reach that size. Precision lost on very long digit strings, and results such as `-0`, are not modelled. Of the Unicode space separators, only the space and the no-break space are treated as white space.
- BoardList.Route: React Router's trailing-slash and case handling and percent-decoding of segments are not modelled.
- The admin console's restore screen, its login gate and the counter app are not part of this model. They are request/response and conditional rendering only.
