# Paginating row adapter (MediaBrowserTv `ItemRowAdapter`)

This project models the pagination state machine of the MediaBrowser TV
client's `ItemRowAdapter`. The adapter backs one horizontally scrolling row
of the home screen. Only an item row pages: it loads catalogue items in
chunks and keeps these counters: how many items are loaded, how many the
server reports in total, and the chunk size. The other catalogue rows
(next up, upcoming, seasons, views, similar items) load one list per
request, a users row loads every user with one request, and a people or
servers row shows the list it was built with, all at once. The adapter also
keeps two flags: "fully loaded" and "a fetch is in flight". The flight flag
blocks a scroll-triggered fetch (`RetrieveNext`) only while it is set. A
reload sets it without testing it, and any callback, even another fetch's,
clears it. So once a reload intervenes, two scroll fetches for the same chunk
can be in flight, and both answers get appended.

The model has three modules:

- `Wrappers`: `Option`, which stands for a Java reference that may be null.
- `RowItems`: the values. An `Item` is reduced to the two fields the adapter
  inspects, its collection type and series id, plus an `id` that only tells
  returned items apart. `RowItem` is one entry of the row. `Filter` and `Admits` give
  the two response filters: the library-views filter that drops `music`,
  `books` and `games`, and the upcoming-episodes series filter. `Keep` is
  the order-preserving filter. `Numbered` gives the running indices. The
  module also holds the lemmas about these functions.
- `RowAdapter`: the class `ItemRowAdapter`.
  - Fields set only by the constructors are `const`.
  - The pagination state is held in `var`s: the query, the two counters, the
    two flags, the row's `entries` and `rowShown`. `rowShown` says
    whether the row is still in its parent list.
  - Each method's `modifies` clause names exactly the fields it may change,
    so the frame states that nothing else changes.

The asynchronous client is not modelled. `Retrieve`, `RetrieveNext` and
`LoadMoreItemsIfNeeded` return the `Request` they would dispatch. Each
response or error callback is a separate method that the environment calls
later. Response callbacks take the returned items and the reported total.

The model keeps these quirks of the code:

- The item-query callback numbers new entries from the current loaded count.
  The other item-list callbacks number from 0. User, person and server
  entries carry no index.
- `Retrieve` empties the row but resets neither `itemsLoaded` nor the query's
  start index. A reload of an item row therefore numbers its entries from the
  stale count. `RowItems.ClearedRowContiguous` shows that such a row's indices
  match the entries' positions only when that count was 0.
- Only the next-up, similar-items and upcoming callbacks take the row out of
  its parent when a positive total comes with nothing added. The item, views
  and seasons callbacks keep the row. The users callback never removes it.
- Fetches are not single-flight across reloads. `Retrieve` sets the flight
  flag without testing it, and every callback clears it, even a stale one from
  an earlier fetch. `RowAdapter.ReloadOverlapsFetch` shows a reload overlapping
  a scroll-triggered fetch, and a third fetch starting after an error callback.
  `RowAdapter.DuplicateChunkFetch` shows a reload's answer clearing the flag
  while a scroll fetch is pending: the next scroll asks for the same chunk, and
  when both answers arrive the chunk is in the row twice.
- The code does not keep "loaded ≤ total". A response whose items outnumber
  the reported total leaves `itemsLoaded` above `totalItems`
  (`RowAdapter.LoadedMayExceedTotal`). So does reloading a views row twice with
  a correct total, because `Retrieve` does not reset the loaded count
  (`RowAdapter.ReloadMayExceedTotal`). The model follows the code and claims
  no such invariant.

## Model

| member | source | states |
|---|---|---|
| `RowItems.Admits` | MediaBrowserTv/app/src/main/java/tv/mediabrowser/mediabrowsertv/ItemRowAdapter.java:244-256 | keeps a view unless its collection type is music, books or games (an absent type is kept); keeps an upcoming episode when the query's parent id or the episode's series id is absent or the two are equal (line 408); keeps anything when unfiltered |
| `RowItems.Keep` | MediaBrowserTv/app/src/main/java/tv/mediabrowser/mediabrowsertv/ItemRowAdapter.java:255-257 | the filtered items are never more than the returned items |
| `RowItems.Numbered` | MediaBrowserTv/app/src/main/java/tv/mediabrowser/mediabrowsertv/ItemRowAdapter.java:284-287 | a chunk adds exactly one row entry per item it numbers |
| `RowItems.NumberedAt` | MediaBrowserTv/app/src/main/java/tv/mediabrowser/mediabrowsertv/ItemRowAdapter.java:284-287 | the k-th numbered entry is the k-th item, with index `first + k` |
| `RowItems.NumberedSnoc` | MediaBrowserTv/app/src/main/java/tv/mediabrowser/mediabrowsertv/ItemRowAdapter.java:285-286 | one loop step adds one entry for the next item, with the next running index |
| `RowItems.KeepSnoc` | MediaBrowserTv/app/src/main/java/tv/mediabrowser/mediabrowsertv/ItemRowAdapter.java:407-409 | one filtering step appends the item exactly when the filter admits it |
| `RowItems.KeepMembers` | MediaBrowserTv/app/src/main/java/tv/mediabrowser/mediabrowsertv/ItemRowAdapter.java:255-257 | an item is kept if and only if it was returned and the filter admits it |
| `RowItems.KeepEmpty` | MediaBrowserTv/app/src/main/java/tv/mediabrowser/mediabrowsertv/ItemRowAdapter.java:405-412 | nothing is kept if and only if the filter rejects every returned item; this decides the upcoming row's removal |
| `RowItems.KeepNoFilter` | MediaBrowserTv/app/src/main/java/tv/mediabrowser/mediabrowsertv/ItemRowAdapter.java:314-316 | without a filter every returned item is added, in order |
| `RowItems.ViewsKept` | MediaBrowserTv/app/src/main/java/tv/mediabrowser/mediabrowsertv/ItemRowAdapter.java:244-257 | a view is kept if and only if it was returned and its collection type is not music, books or games (a view with no type is kept) |
| `RowItems.UpcomingKept` | MediaBrowserTv/app/src/main/java/tv/mediabrowser/mediabrowsertv/ItemRowAdapter.java:405-409 | an episode is kept if and only if it was returned and the query's parent id is absent, the episode's series id is absent, or the two are equal |
| `RowItems.AppendKeepsContiguous` | MediaBrowserTv/app/src/main/java/tv/mediabrowser/mediabrowsertv/ItemRowAdapter.java:282-289 | numbering a chunk from the current count keeps every index equal to its entry's position |
| `RowItems.ClearedRowContiguous` | MediaBrowserTv/app/src/main/java/tv/mediabrowser/mediabrowsertv/ItemRowAdapter.java:158-163 | after the row is emptied, a non-empty chunk numbered from the stale count lines indices up with positions if and only if that count is 0 |
| `RowAdapter.ItemRowAdapter.ForItems` | MediaBrowserTv/app/src/main/java/tv/mediabrowser/mediabrowsertv/ItemRowAdapter.java:58-65 | an item row starts empty and unloaded; a positive chunk size becomes the query's limit |
| `RowAdapter.ItemRowAdapter.ForKind` | MediaBrowserTv/app/src/main/java/tv/mediabrowser/mediabrowsertv/ItemRowAdapter.java:67-120 | every other kind of row starts empty and unloaded, with no paged query and chunk size 0 |
| `RowAdapter.ItemRowAdapter.SetItemsLoaded` | MediaBrowserTv/app/src/main/java/tv/mediabrowser/mediabrowsertv/ItemRowAdapter.java:122-125 | the loaded count becomes `n`; "fully loaded" holds if and only if the chunk size is 0 or `n` reaches the total; nothing else changes |
| `RowAdapter.ItemRowAdapter.LoadMoreItemsIfNeeded` | MediaBrowserTv/app/src/main/java/tv/mediabrowser/mediabrowsertv/ItemRowAdapter.java:131-147 | a fetch starts if and only if the row is not fully loaded, no fetch is in flight, the position is at most 20 before the loaded count (or past it) and there is a paged query; otherwise nothing changes |
| `RowAdapter.ItemRowAdapter.RetrieveNext` | MediaBrowserTv/app/src/main/java/tv/mediabrowser/mediabrowsertv/ItemRowAdapter.java:149-156 | does nothing when the row is fully loaded, has no paged query or has a fetch in flight; otherwise sets the flight flag and starts the fetch at the loaded count |
| `RowAdapter.ItemRowAdapter.Retrieve` | MediaBrowserTv/app/src/main/java/tv/mediabrowser/mediabrowsertv/ItemRowAdapter.java:158-192 | empties the row, sets the flight flag and dispatches the request for its query type; people and servers rows load at once and end the flight; the counters are untouched |
| `RowAdapter.ItemRowAdapter.LoadPeople` | MediaBrowserTv/app/src/main/java/tv/mediabrowser/mediabrowsertv/ItemRowAdapter.java:218-229 | appends one entry per person in order, or removes the row when there is no list; ends the flight |
| `RowAdapter.ItemRowAdapter.LoadServers` | MediaBrowserTv/app/src/main/java/tv/mediabrowser/mediabrowsertv/ItemRowAdapter.java:231-242 | appends one entry per server in order, or removes the row when there is no list; ends the flight |
| `RowAdapter.ItemRowAdapter.AppendChunk` | MediaBrowserTv/app/src/main/java/tv/mediabrowser/mediabrowsertv/ItemRowAdapter.java:312-325 | shared callback body: a positive total appends the admitted items numbered from `first`, records the total and raises the loaded count by the number added (optionally removing a row that got nothing); otherwise only removes the row; always ends the flight |
| `RowAdapter.ItemRowAdapter.OnItemsResponse` | MediaBrowserTv/app/src/main/java/tv/mediabrowser/mediabrowsertv/ItemRowAdapter.java:282-296 | a positive total appends every item, indexed from the old loaded count, sets the total and raises the loaded count by the number of items; a total of 0 only removes the row; keeps indices equal to positions |
| `RowAdapter.ItemRowAdapter.OnViewsResponse` | MediaBrowserTv/app/src/main/java/tv/mediabrowser/mediabrowsertv/ItemRowAdapter.java:252-266 | a positive total appends the views that are not music, books or games, numbered from 0, and raises the loaded count by the number kept |
| `RowAdapter.ItemRowAdapter.OnListResponse` | MediaBrowserTv/app/src/main/java/tv/mediabrowser/mediabrowsertv/ItemRowAdapter.java:311-326 | next-up (and the identical similar-series and similar-movies callbacks, lines 342-357 and 373-388): appends every item numbered from 0; the row stays if and only if it was shown and something came back |
| `RowAdapter.ItemRowAdapter.OnUpcomingResponse` | MediaBrowserTv/app/src/main/java/tv/mediabrowser/mediabrowsertv/ItemRowAdapter.java:404-419 | appends the episodes of the queried series numbered from 0; the row stays if and only if it was shown and some returned episode matched |
| `RowAdapter.ItemRowAdapter.OnSeasonResponse` | MediaBrowserTv/app/src/main/java/tv/mediabrowser/mediabrowsertv/ItemRowAdapter.java:435-449 | appends every season numbered from 0; the row stays when a positive total brings no items; a total of 0 or less removes it |
| `RowAdapter.ItemRowAdapter.OnUsersResponse` | MediaBrowserTv/app/src/main/java/tv/mediabrowser/mediabrowsertv/ItemRowAdapter.java:198-206 | appends one entry per user in order; total and loaded count both become the number of users, so the row is fully loaded |
| `RowAdapter.ItemRowAdapter.OnError` | MediaBrowserTv/app/src/main/java/tv/mediabrowser/mediabrowsertv/ItemRowAdapter.java:298-303 | only ends the flight: the entries, the counters and the row's presence are unchanged |
| `RowAdapter.LoadedMayExceedTotal` | MediaBrowserTv/app/src/main/java/tv/mediabrowser/mediabrowsertv/ItemRowAdapter.java:282-289 | from an empty item row, a page of two items reporting a total of 1 leaves 2 loaded and a total of 1, so loaded never exceeding total is not an invariant |
| `RowAdapter.ReloadMayExceedTotal` | MediaBrowserTv/app/src/main/java/tv/mediabrowser/mediabrowsertv/ItemRowAdapter.java:158-160 | reloading an empty views row twice, each time with one admitted view and a reported total of 1, leaves 2 loaded against a total of 1 (the views callback adds to the count at line 259) |
| `RowAdapter.ReloadOverlapsFetch` | MediaBrowserTv/app/src/main/java/tv/mediabrowser/mediabrowsertv/ItemRowAdapter.java:158-159 | after a scroll starts a fetch, a reload still starts an item fetch; after an error callback a scroll near the end starts another |
| `RowAdapter.DuplicateChunkFetch` | MediaBrowserTv/app/src/main/java/tv/mediabrowser/mediabrowsertv/ItemRowAdapter.java:136-159 | a reload answered while a scroll fetch is pending clears the flag, so the next scroll asks for the same start index again; when both answers bring the same item it is appended twice, numbered from the loaded count and one past it |
| `RowAdapter.SingleFlight` | MediaBrowserTv/app/src/main/java/tv/mediabrowser/mediabrowsertv/ItemRowAdapter.java:136-151 | while the flag set by a scroll fetch is still up a second scroll starts nothing; after an error the same chunk is asked for again |

## Left out

- The asynchronous client calls (`GetItemsAsync`, `GetUserViews`, `GetPublicUsersAsync` and the others) are foreign network calls. They become the returned `Request`, and their callbacks become methods.
- Leanback rendering (`ArrayObjectAdapter`, `ListRow`, `Presenter`) is not modelled. The row's entries are the sequence `entries`, and `mParent.remove(mRow)` is `rowShown := false`. `setRow` only stores the widget handle and is not modelled.
- Logging and toasts are I/O with no effect on the state.
- The `synchronized` blocks around the flight flag are not modelled. The flag is a plain field, and thread interleavings are not modelled.
- The DTOs (`BaseItemDto`, `UserDto`, `BaseItemPerson`, `ServerInfo`) and the `TvApp` singleton are outside the model. An item keeps only its id, collection type and series id.
- The accessors `isCurrentlyRetrieving`, `setCurrentlyRetrieving` and `getItemsLoaded` are not modelled as methods. The model reads and writes the fields directly.
- Java `int` is 32 bits, but the counters here are unbounded. Overflow of `itemsLoaded + i` and of `itemsLoaded - 20` needs about 2^31 items and is not modelled.
- The public overloads `Retrieve(query)` for each query kind are reached only through `Retrieve` and `RetrieveNext`. Other code calling them with an arbitrary query is not modelled.
- `RowAdapter.ItemRowAdapter.ForKind` requires a kind other than `Items`. The similar-items constructor (lines 88-93) accepts any kind. Given `Items`, it would make a row that dispatches a null item query.
- `RowAdapter.ItemRowAdapter.ForItems` takes a query value, so an item row built with a null query is not modelled, and `Valid()` excludes it. In the source such a constructor call throws only when the chunk size is positive (`setLimit`, line 63). With a chunk size of 0 or less it builds an item row with no query: `RetrieveNext` then does nothing (line 150) and `Retrieve` passes null to the client (line 163). Likewise, an upcoming row always has a query here; only its parent id may be absent.
- `RowAdapter.ItemRowAdapter.ForItems` and `RowAdapter.ItemRowAdapter.RetrieveNext`: the source stores the caller's query object (line 61) and changes it in place (`setLimit` at line 63, `setStartIndex` at line 154), so the caller sees the new start index and the caller's own later changes alter the next fetch. The model holds the query as a value that only the adapter writes; that sharing, and outside changes to the query, are not modelled. `Valid()`'s limit conjunct relies on this.
- The views constructor's `ViewQuery` argument is ignored by the source and is not a parameter here.
- `RowAdapter.ItemRowAdapter.OnListResponse` is one method for three identical callbacks (next-up, similar series, similar movies).
- `RowAdapter.ItemRowAdapter.OnUpcomingResponse`: the source keeps the caller's upcoming-episodes query object (line 98) and reads its parent id only when the response arrives (line 408), so a change the caller makes to that query changes the filter. The model fixes the parent id at construction (`upcomingParentId`), so such outside changes are not modelled.
- Null response arrays are not modelled. In the source a null user array (line 199) or a null `getItems()` (lines 255, 285, 314, 345, 376, 407, 438) throws before the flight flag is cleared, so the row stays "in flight" and later scrolls stop at line 136. The model's callbacks take a sequence and always clear the flag.
