/**
 * The paginating row adapter: which query a row shows, how far it has loaded,
 * whether a fetch is in flight, and the row's entries. The asynchronous client
 * calls are not modelled: an operation that would start one returns the
 * `Request` it dispatches, and each response or error callback is a method the
 * environment calls later.
 */
module RowAdapter {
  import opened Wrappers
  import opened RowItems

  /** The kinds of content a row can show; the adapter dispatches on it. */
  datatype QueryType =
    | Items | NextUp | Upcoming | Season | Views
    | SimilarSeries | SimilarMovies | StaticPeople | StaticServers | Users

  /** The paged item query: where the next chunk starts and how many items a chunk holds. */
  datatype ItemQuery = ItemQuery(startIndex: Option<int>, limit: Option<int>)

  /** The asynchronous call a retrieval starts; its callback arrives later as a method call. */
  datatype Request =
    | FetchItems(query: ItemQuery)
    | FetchNextUp
    | FetchUpcoming
    | FetchSeasons
    | FetchViews
    | FetchSimilarSeries
    | FetchSimilarMovies
    | FetchUsers
    | NoFetch

  /** A scroll position this close to the end of what is loaded triggers the next chunk. */
  const PrefetchMargin := 20

  class ItemRowAdapter {
    // Set once, by the constructor.
    const queryType: QueryType
    const chunkSize: int
    const upcomingParentId: Option<string>
    const persons: Option<seq<Person>>
    const servers: Option<seq<Server>>

    // Pagination state.
    var query: Option<ItemQuery>
    var itemsLoaded: int
    var totalItems: int
    var fullyLoaded: bool
    var currentlyRetrieving: bool

    // The row's entries, and whether the row is still in its parent list.
    var entries: seq<RowItem>
    var rowShown: bool

    /** Only an item row has a paged query, and that query's limit is the chunk size when there is one. */
    ghost predicate Valid()
      reads this`query
    {
      (queryType == Items <==> query.Some?) &&
      (query.Some? && chunkSize > 0 ==> query.value.limit == Some(chunkSize))
    }

    /** A row paging through `q` in chunks of `chunkSize` (0: a single unpaged request). */
    constructor ForItems(q: ItemQuery, chunkSize: int)
      ensures Valid()
      ensures queryType == Items && this.chunkSize == chunkSize
      ensures query == Some(if chunkSize > 0 then q.(limit := Some(chunkSize)) else q)
      ensures itemsLoaded == 0 && totalItems == 0 && !fullyLoaded && !currentlyRetrieving
      ensures entries == [] && rowShown
    {
      queryType := Items;
      this.chunkSize := chunkSize;
      upcomingParentId, persons, servers := None, None, None;
      query := Some(if chunkSize > 0 then q.(limit := Some(chunkSize)) else q);
      itemsLoaded, totalItems := 0, 0;
      fullyLoaded, currentlyRetrieving := false, false;
      entries, rowShown := [], true;
    }

    /**
     * A row of one of the unpaged kinds. The similar-items constructor passes its
     * kind through; the others fix it. People and servers rows carry their
     * static lists, an upcoming-episodes row its query's parent id.
     */
    constructor ForKind(kind: QueryType, parentId: Option<string>,
                        people: Option<seq<Person>>, serverList: Option<seq<Server>>)
      requires kind != Items
      ensures Valid()
      ensures queryType == kind && chunkSize == 0 && query == None
      ensures upcomingParentId == parentId && persons == people && servers == serverList
      ensures itemsLoaded == 0 && totalItems == 0 && !fullyLoaded && !currentlyRetrieving
      ensures entries == [] && rowShown
    {
      queryType := kind;
      chunkSize := 0;
      upcomingParentId, persons, servers := parentId, people, serverList;
      query := None;
      itemsLoaded, totalItems := 0, 0;
      fullyLoaded, currentlyRetrieving := false, false;
      entries, rowShown := [], true;
    }

    /** Records how many items are loaded and recomputes whether the row is complete. */
    method SetItemsLoaded(n: int)
      modifies this`itemsLoaded, this`fullyLoaded
      ensures itemsLoaded == n
      ensures fullyLoaded <==> chunkSize == 0 || n >= totalItems
    {
      itemsLoaded := n;
      fullyLoaded := chunkSize == 0 || n >= totalItems;
    }

    /** True when a scroll to `pos` should fetch the next chunk. */
    ghost predicate WantsMore(pos: int)
      reads this`fullyLoaded, this`currentlyRetrieving, this`itemsLoaded
    {
      !fullyLoaded && !currentlyRetrieving && pos >= itemsLoaded - PrefetchMargin
    }

    /**
     * Starts the fetch of the next chunk unless the row is complete, has no
     * paged query, or a fetch is already in flight.
     */
    method RetrieveNext() returns (req: Option<Request>)
      requires Valid()
      modifies this`currentlyRetrieving, this`query
      ensures Valid()
      ensures req.Some? <==> !fullyLoaded && old(query).Some? && !old(currentlyRetrieving)
      ensures req.Some? ==>
                currentlyRetrieving &&
                query == Some(old(query).value.(startIndex := Some(itemsLoaded))) &&
                req == Some(FetchItems(query.value))
      ensures req.None? ==> currentlyRetrieving == old(currentlyRetrieving) && query == old(query)
    {
      if fullyLoaded || query.None? || currentlyRetrieving {
        return None;
      }
      currentlyRetrieving := true;
      query := Some(query.value.(startIndex := Some(itemsLoaded)));
      req := Some(FetchItems(query.value));
    }

    /** Called as the row scrolls: fetches the next chunk when `pos` is near the end of what is loaded. */
    method LoadMoreItemsIfNeeded(pos: int) returns (req: Option<Request>)
      requires Valid()
      modifies this`currentlyRetrieving, this`query
      ensures Valid()
      ensures req.Some? <==> old(WantsMore(pos)) && old(query).Some?
      ensures req.Some? ==>
                currentlyRetrieving &&
                query == Some(old(query).value.(startIndex := Some(itemsLoaded))) &&
                req == Some(FetchItems(query.value))
      ensures req.None? ==> currentlyRetrieving == old(currentlyRetrieving) && query == old(query)
    {
      req := None;
      if fullyLoaded {
        return;
      }
      if currentlyRetrieving {
        return;
      }
      if pos >= itemsLoaded - PrefetchMargin {
        req := RetrieveNext();
      }
    }

    /** Appends the static cast list, or takes the row out of its parent when there is none. */
    method LoadPeople()
      modifies this`entries, this`rowShown, this`currentlyRetrieving
      ensures !currentlyRetrieving
      ensures persons.Some? ==>
                |entries| == |old(entries)| + |persons.value| && entries[..|old(entries)|] == old(entries) &&
                (forall k :: 0 <= k < |persons.value| ==> entries[|old(entries)| + k] == PersonRow(persons.value[k])) &&
                rowShown == old(rowShown)
      ensures persons.None? ==> entries == old(entries) && !rowShown
    {
      if persons.Some? {
        var people := persons.value;
        var j := 0;
        while j < |people|
          modifies this`entries
          invariant 0 <= j <= |people|
          invariant |entries| == |old(entries)| + j && entries[..|old(entries)|] == old(entries)
          invariant forall k :: 0 <= k < j ==> entries[|old(entries)| + k] == PersonRow(people[k])
        {
          entries := entries + [PersonRow(people[j])];
          j := j + 1;
        }
      } else {
        rowShown := false;
      }
      currentlyRetrieving := false;
    }

    /** Appends the static server list, or takes the row out of its parent when there is none. */
    method LoadServers()
      modifies this`entries, this`rowShown, this`currentlyRetrieving
      ensures !currentlyRetrieving
      ensures servers.Some? ==>
                |entries| == |old(entries)| + |servers.value| && entries[..|old(entries)|] == old(entries) &&
                (forall k :: 0 <= k < |servers.value| ==> entries[|old(entries)| + k] == ServerRow(servers.value[k])) &&
                rowShown == old(rowShown)
      ensures servers.None? ==> entries == old(entries) && !rowShown
    {
      if servers.Some? {
        var list := servers.value;
        var j := 0;
        while j < |list|
          modifies this`entries
          invariant 0 <= j <= |list|
          invariant |entries| == |old(entries)| + j && entries[..|old(entries)|] == old(entries)
          invariant forall k :: 0 <= k < j ==> entries[|old(entries)| + k] == ServerRow(list[k])
        {
          entries := entries + [ServerRow(list[j])];
          j := j + 1;
        }
      } else {
        rowShown := false;
      }
      currentlyRetrieving := false;
    }

    /**
     * (Re)loads the row: marks a fetch in flight, empties the row (without
     * resetting the counters or the query's start index) and dispatches on the
     * query type. People and servers rows load at once; the others start a fetch.
     */
    method Retrieve() returns (req: Request)
      requires Valid()
      modifies this`entries, this`rowShown, this`currentlyRetrieving
      ensures Valid()
      ensures queryType == Items ==> req == FetchItems(query.value)
      ensures queryType == NextUp ==> req == FetchNextUp
      ensures queryType == Upcoming ==> req == FetchUpcoming
      ensures queryType == Season ==> req == FetchSeasons
      ensures queryType == Views ==> req == FetchViews
      ensures queryType == SimilarSeries ==> req == FetchSimilarSeries
      ensures queryType == SimilarMovies ==> req == FetchSimilarMovies
      ensures queryType == Users ==> req == FetchUsers
      ensures queryType == StaticPeople || queryType == StaticServers ==> req == NoFetch
      ensures req != NoFetch ==> currentlyRetrieving && entries == [] && rowShown == old(rowShown)
      ensures queryType == StaticPeople ==>
                !currentlyRetrieving &&
                (persons.Some? ==> entries == seq(|persons.value|, k requires 0 <= k < |persons.value| => PersonRow(persons.value[k])) && rowShown == old(rowShown)) &&
                (persons.None? ==> entries == [] && !rowShown)
      ensures queryType == StaticServers ==>
                !currentlyRetrieving &&
                (servers.Some? ==> entries == seq(|servers.value|, k requires 0 <= k < |servers.value| => ServerRow(servers.value[k])) && rowShown == old(rowShown)) &&
                (servers.None? ==> entries == [] && !rowShown)
    {
      currentlyRetrieving := true;
      entries := [];
      match queryType
      case Items => req := FetchItems(query.value);
      case NextUp => req := FetchNextUp;
      case Upcoming => req := FetchUpcoming;
      case Season => req := FetchSeasons;
      case Views => req := FetchViews;
      case SimilarSeries => req := FetchSimilarSeries;
      case SimilarMovies => req := FetchSimilarMovies;
      case StaticPeople =>
        LoadPeople();
        req := NoFetch;
      case StaticServers =>
        LoadServers();
        req := NoFetch;
      case Users => req := FetchUsers;
    }

    /**
     * The body shared by the item-list response callbacks. With a positive total
     * it appends the items `f` admits, numbered from `first`, records the total,
     * advances the loaded count by the number appended and, when asked to, takes
     * the row out of its parent if nothing was appended; with a total of 0 or less
     * it only takes the row out. Either way the fetch is over.
     */
    method AppendChunk(items: seq<Item>, total: int, first: int, f: Filter, dropRowIfEmpty: bool)
      requires Valid()
      modifies this`entries, this`totalItems, this`itemsLoaded, this`fullyLoaded
      modifies this`rowShown, this`currentlyRetrieving
      ensures Valid()
      ensures !currentlyRetrieving
      ensures total > 0 ==>
                entries == old(entries) + Numbered(Keep(items, f), first) &&
                totalItems == total &&
                itemsLoaded == old(itemsLoaded) + |Keep(items, f)| &&
                (fullyLoaded <==> chunkSize == 0 || itemsLoaded >= total) &&
                (rowShown <==> old(rowShown) && !(dropRowIfEmpty && Keep(items, f) == []))
      ensures total <= 0 ==>
                entries == old(entries) && totalItems == old(totalItems) &&
                itemsLoaded == old(itemsLoaded) && fullyLoaded == old(fullyLoaded) && !rowShown
    {
      if total > 0 {
        var i := first;
        var j := 0;
        while j < |items|
          modifies this`entries
          invariant 0 <= j <= |items|
          invariant i == first + |Keep(items[..j], f)|
          invariant entries == old(entries) + Numbered(Keep(items[..j], f), first)
        {
          KeepSnoc(items[..j], items[j], f);
          assert items[..j + 1] == items[..j] + [items[j]];
          if Admits(f, items[j]) {
            NumberedSnoc(Keep(items[..j], f), items[j], first);
            assert Keep(items[..j + 1], f) == Keep(items[..j], f) + [items[j]];
            entries := entries + [ItemRow(i, items[j])];
            i := i + 1;
          } else {
            assert Keep(items[..j], f) + [] == Keep(items[..j], f);
          }
          j := j + 1;
        }
        assert items[..|items|] == items;
        totalItems := total;
        SetItemsLoaded(itemsLoaded + (i - first));
        if dropRowIfEmpty && i == first {
          rowShown := false;
        }
      } else {
        rowShown := false;
      }
      currentlyRetrieving := false;
    }

    /**
     * Response to a paged item query: every returned item is appended, numbered
     * on from the current loaded count.
     */
    method OnItemsResponse(items: seq<Item>, total: int)
      requires Valid()
      modifies this`entries, this`totalItems, this`itemsLoaded, this`fullyLoaded
      modifies this`rowShown, this`currentlyRetrieving
      ensures Valid()
      ensures !currentlyRetrieving
      ensures total > 0 ==>
                entries == old(entries) + Numbered(items, old(itemsLoaded)) &&
                totalItems == total &&
                itemsLoaded == old(itemsLoaded) + |items| &&
                (fullyLoaded <==> chunkSize == 0 || itemsLoaded >= total) &&
                rowShown == old(rowShown)
      ensures total > 0 && old(Contiguous(entries)) && old(itemsLoaded) == old(|entries|) ==>
                Contiguous(entries) && itemsLoaded == |entries|
      ensures total <= 0 ==>
                entries == old(entries) && totalItems == old(totalItems) &&
                itemsLoaded == old(itemsLoaded) && fullyLoaded == old(fullyLoaded) && !rowShown
    {
      KeepNoFilter(items);
      ghost var before := entries;
      ghost var loaded := itemsLoaded;
      AppendChunk(items, total, itemsLoaded, NoFilter, false);
      if total > 0 && Contiguous(before) && loaded == |before| {
        AppendKeepsContiguous(before, items);
      }
    }

    /** Response to the library-views request: music, books and games libraries are skipped; the rest are numbered from 0. */
    method OnViewsResponse(items: seq<Item>, total: int)
      requires Valid()
      modifies this`entries, this`totalItems, this`itemsLoaded, this`fullyLoaded
      modifies this`rowShown, this`currentlyRetrieving
      ensures Valid()
      ensures !currentlyRetrieving
      ensures total > 0 ==>
                entries == old(entries) + Numbered(Keep(items, ViewTypes), 0) &&
                totalItems == total &&
                itemsLoaded == old(itemsLoaded) + |Keep(items, ViewTypes)| &&
                (fullyLoaded <==> chunkSize == 0 || itemsLoaded >= total) &&
                rowShown == old(rowShown)
      ensures total <= 0 ==>
                entries == old(entries) && totalItems == old(totalItems) &&
                itemsLoaded == old(itemsLoaded) && fullyLoaded == old(fullyLoaded) && !rowShown
    {
      AppendChunk(items, total, 0, ViewTypes, false);
    }

    /**
     * Response to the next-up, similar-series and similar-movies requests (three
     * identical callbacks): items numbered from 0; the row is taken out when
     * nothing was returned.
     */
    method OnListResponse(items: seq<Item>, total: int)
      requires Valid()
      modifies this`entries, this`totalItems, this`itemsLoaded, this`fullyLoaded
      modifies this`rowShown, this`currentlyRetrieving
      ensures Valid()
      ensures !currentlyRetrieving
      ensures total > 0 ==>
                entries == old(entries) + Numbered(items, 0) &&
                totalItems == total &&
                itemsLoaded == old(itemsLoaded) + |items| &&
                (fullyLoaded <==> chunkSize == 0 || itemsLoaded >= total) &&
                (rowShown <==> old(rowShown) && items != [])
      ensures total <= 0 ==>
                entries == old(entries) && totalItems == old(totalItems) &&
                itemsLoaded == old(itemsLoaded) && fullyLoaded == old(fullyLoaded) && !rowShown
    {
      KeepNoFilter(items);
      AppendChunk(items, total, 0, NoFilter, true);
    }

    /**
     * Response to the upcoming-episodes request: only episodes of the queried
     * series are kept (all of them when either id is absent), numbered from 0;
     * the row is taken out when none is kept.
     */
    method OnUpcomingResponse(items: seq<Item>, total: int)
      requires Valid()
      modifies this`entries, this`totalItems, this`itemsLoaded, this`fullyLoaded
      modifies this`rowShown, this`currentlyRetrieving
      ensures Valid()
      ensures !currentlyRetrieving
      ensures total > 0 ==>
                entries == old(entries) + Numbered(Keep(items, SeriesOf(upcomingParentId)), 0) &&
                totalItems == total &&
                itemsLoaded == old(itemsLoaded) + |Keep(items, SeriesOf(upcomingParentId))| &&
                (fullyLoaded <==> chunkSize == 0 || itemsLoaded >= total)
      ensures total > 0 ==>
                (rowShown <==> old(rowShown) && exists x :: x in items && Admits(SeriesOf(upcomingParentId), x))
      ensures total <= 0 ==>
                entries == old(entries) && totalItems == old(totalItems) &&
                itemsLoaded == old(itemsLoaded) && fullyLoaded == old(fullyLoaded) && !rowShown
    {
      KeepEmpty(items, SeriesOf(upcomingParentId));
      AppendChunk(items, total, 0, SeriesOf(upcomingParentId), true);
    }

    /** Response to the seasons request: items numbered from 0; the row stays even when nothing was returned. */
    method OnSeasonResponse(items: seq<Item>, total: int)
      requires Valid()
      modifies this`entries, this`totalItems, this`itemsLoaded, this`fullyLoaded
      modifies this`rowShown, this`currentlyRetrieving
      ensures Valid()
      ensures !currentlyRetrieving
      ensures total > 0 ==>
                entries == old(entries) + Numbered(items, 0) &&
                totalItems == total &&
                itemsLoaded == old(itemsLoaded) + |items| &&
                (fullyLoaded <==> chunkSize == 0 || itemsLoaded >= total) &&
                rowShown == old(rowShown)
      ensures total <= 0 ==>
                entries == old(entries) && totalItems == old(totalItems) &&
                itemsLoaded == old(itemsLoaded) && fullyLoaded == old(fullyLoaded) && !rowShown
    {
      KeepNoFilter(items);
      AppendChunk(items, total, 0, NoFilter, false);
    }

    /** Response to the public-users request: every user is appended and the total is the number of users. */
    method OnUsersResponse(users: seq<User>)
      modifies this`entries, this`totalItems, this`itemsLoaded, this`fullyLoaded, this`currentlyRetrieving
      ensures !currentlyRetrieving
      ensures |entries| == |old(entries)| + |users| && entries[..|old(entries)|] == old(entries)
      ensures forall k :: 0 <= k < |users| ==> entries[|old(entries)| + k] == UserRow(users[k])
      ensures totalItems == |users| && itemsLoaded == |users|
      ensures fullyLoaded
    {
      var j := 0;
      while j < |users|
        modifies this`entries
        invariant 0 <= j <= |users|
        invariant |entries| == |old(entries)| + j && entries[..|old(entries)|] == old(entries)
        invariant forall k :: 0 <= k < j ==> entries[|old(entries)| + k] == UserRow(users[k])
      {
        entries := entries + [UserRow(users[j])];
        j := j + 1;
      }
      totalItems := |users|;
      SetItemsLoaded(totalItems);
      currentlyRetrieving := false;
    }

    /** The error callback of every request: the fetch is over and nothing else changes. */
    method OnError()
      modifies this`currentlyRetrieving
      ensures !currentlyRetrieving
    {
      currentlyRetrieving := false;
    }
  }

  /**
   * Loaded never exceeding total is not an invariant of the adapter: a page
   * whose items outnumber the total it reports leaves more loaded than total.
   */
  method LoadedMayExceedTotal(a: ItemRowAdapter, x: Item, y: Item)
    requires a.Valid() && a.itemsLoaded == 0
    modifies a
    ensures a.itemsLoaded == 2 && a.totalItems == 1
  {
    a.OnItemsResponse([x, y], 1);
  }

  /**
   * Even with a server that reports its total correctly, reloading a views row
   * twice leaves more loaded than total, because a reload does not reset the
   * loaded count.
   */
  method ReloadMayExceedTotal(a: ItemRowAdapter, x: Item)
    requires a.Valid() && a.queryType == Views && a.itemsLoaded == 0
    requires Admits(ViewTypes, x)
    modifies a
    ensures a.itemsLoaded == 2 && a.totalItems == 1
  {
    assert Keep([x], ViewTypes) == [x];
    var _ := a.Retrieve();
    a.OnViewsResponse([x], 1);
    var _ := a.Retrieve();
    a.OnViewsResponse([x], 1);
  }

  /**
   * Only scroll-triggered fetches are single flight: a reload starts a fetch
   * without testing the flight flag, and any callback, even one of an earlier
   * fetch, clears it. Here a reload overlaps a scroll-triggered fetch, and after
   * an error callback a further scroll starts a third fetch while the first two
   * may still be pending.
   */
  method ReloadOverlapsFetch(a: ItemRowAdapter, pos: int)
      returns (r1: Option<Request>, r2: Request, r3: Option<Request>)
    requires a.Valid()
    modifies a
    ensures r1.Some? ==> r2.FetchItems?
    ensures r1.Some? && pos >= a.itemsLoaded - PrefetchMargin ==> r3.Some?
  {
    r1 := a.LoadMoreItemsIfNeeded(pos);
    r2 := a.Retrieve();
    a.OnError();
    r3 := a.LoadMoreItemsIfNeeded(pos);
  }

  /**
   * The flight flag only blocks a scroll fetch while it is set. A reload's
   * answer clears it while a scroll fetch is still pending, so the next scroll
   * asks for the same chunk again, and when both answers arrive the chunk is
   * appended twice.
   */
  method DuplicateChunkFetch(a: ItemRowAdapter, pos: int, total: int, x: Item)
      returns (r1: Option<Request>, r3: Option<Request>)
    requires a.Valid() && a.queryType == Items && a.chunkSize > 0
    requires !a.fullyLoaded && !a.currentlyRetrieving && pos >= a.itemsLoaded - PrefetchMargin
    requires total > a.itemsLoaded && total > 0
    modifies a
    ensures r1.Some? && r3 == r1
    ensures a.entries == [ItemRow(old(a.itemsLoaded), x), ItemRow(old(a.itemsLoaded) + 1, x)]
  {
    ghost var n := a.itemsLoaded;
    r1 := a.LoadMoreItemsIfNeeded(pos);
    var _ := a.Retrieve();
    a.OnItemsResponse([], total);
    assert a.entries == [] && a.itemsLoaded == n;
    r3 := a.LoadMoreItemsIfNeeded(pos);
    assert a.entries == [] && a.itemsLoaded == n;
    a.OnItemsResponse([x], total);
    assert a.entries == [ItemRow(n, x)] && a.itemsLoaded == n + 1;
    a.OnItemsResponse([x], total);
  }

  /**
   * Single flight: once a scroll has started a fetch, no further scroll starts
   * another until any callback, even another fetch's, clears the flag; after an error the next scroll near the
   * end asks for the same chunk again.
   */
  method SingleFlight(a: ItemRowAdapter, pos1: int, pos2: int) returns (r1: Option<Request>, r2: Option<Request>, r3: Option<Request>)
    requires a.Valid()
    modifies a
    ensures r1.Some? ==> r2.None?
    ensures r1.Some? && pos2 >= a.itemsLoaded - PrefetchMargin ==> r3 == r1
  {
    r1 := a.LoadMoreItemsIfNeeded(pos1);
    r2 := a.LoadMoreItemsIfNeeded(pos2);
    a.OnError();
    r3 := a.LoadMoreItemsIfNeeded(pos2);
  }
}
