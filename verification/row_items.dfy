/**
 * The values a row adapter holds: the items a server returns, the row items
 * built from them, the two response filters, and the numbering of row items.
 */
module RowItems {
  import opened Wrappers

  /**
   * A catalogue item, reduced to the two fields the adapter inspects
   * (collection type and series id); `id` only tells returned items apart.
   */
  datatype Item = Item(id: string, collectionType: Option<string>, seriesId: Option<string>)

  /** A user, a cast member and a server, each opaque to the adapter. */
  datatype User = User(id: string)
  datatype Person = Person(name: string)
  datatype Server = Server(id: string)

  /** One entry of the row: catalogue items carry their running index, the others do not. */
  datatype RowItem =
    | ItemRow(index: int, item: Item)
    | UserRow(user: User)
    | PersonRow(person: Person)
    | ServerRow(server: Server)

  /** Collection types the library-views row never shows. */
  const IgnoredTypes: seq<string> := ["music", "books", "games"]

  /** The predicate a response handler applies to each returned item before adding it. */
  datatype Filter =
    | NoFilter
      /** Library views: drop the ignored collection types (an absent type is kept). */
    | ViewTypes
      /** Upcoming episodes: keep an item of the queried series, or when either id is absent. */
    | SeriesOf(parentId: Option<string>)

  /**
   * Whether a response handler adds `item`: a view unless its collection type is
   * music, books or games; an episode when either series id is absent or the
   * two are equal; anything when there is no filter.
   */
  function Admits(f: Filter, item: Item): (b: bool)
    ensures f == ViewTypes ==>
              (b <==> item.collectionType !in {Some("music"), Some("books"), Some("games")})
    ensures f.SeriesOf? ==>
              (b <==> f.parentId == None || item.seriesId == None || item.seriesId == f.parentId)
    ensures f == NoFilter ==> b
  {
    match f
    case NoFilter => true
    case ViewTypes => item.collectionType.None? || item.collectionType.value !in IgnoredTypes
    case SeriesOf(parentId) =>
      parentId.None? || item.seriesId.None? || item.seriesId.value == parentId.value
  }

  /** The items `f` admits, in their original order. */
  function Keep(items: seq<Item>, f: Filter): (r: seq<Item>)
    ensures |r| <= |items|
  {
    if items == [] then []
    else (if Admits(f, items[0]) then [items[0]] else []) + Keep(items[1..], f)
  }

  /** Row items for `items`, numbered `first`, `first + 1`, ... in order. */
  function Numbered(items: seq<Item>, first: int): (r: seq<RowItem>)
    ensures |r| == |items|
  {
    if items == [] then [] else [ItemRow(first, items[0])] + Numbered(items[1..], first + 1)
  }

  /** Every entry is a catalogue item whose index is its position in the row. */
  ghost predicate Contiguous(rows: seq<RowItem>) {
    forall k :: 0 <= k < |rows| ==> rows[k].ItemRow? && rows[k].index == k
  }

  lemma {:induction false} NumberedAt(items: seq<Item>, first: int, k: int)
    requires 0 <= k < |items|
    ensures Numbered(items, first)[k] == ItemRow(first + k, items[k])
  {
    if k > 0 {
      NumberedAt(items[1..], first + 1, k - 1);
    }
  }

  /** Numbering one more item extends the numbered row by one entry with the next index. */
  lemma {:induction false} NumberedSnoc(items: seq<Item>, x: Item, first: int)
    ensures Numbered(items + [x], first) == Numbered(items, first) + [ItemRow(first + |items|, x)]
  {
    if items == [] {
      assert items + [x] == [x];
    } else {
      assert (items + [x])[1..] == items[1..] + [x];
      NumberedSnoc(items[1..], x, first + 1);
    }
  }

  /** Filtering one more item appends it exactly when the filter admits it. */
  lemma {:induction false} KeepSnoc(items: seq<Item>, x: Item, f: Filter)
    ensures Keep(items + [x], f) == Keep(items, f) + (if Admits(f, x) then [x] else [])
  {
    if items == [] {
      assert items + [x] == [x];
      assert Keep([x], f) == (if Admits(f, x) then [x] else []) + Keep([], f);
    } else {
      assert (items + [x])[1..] == items[1..] + [x];
      KeepSnoc(items[1..], x, f);
    }
  }

  /** An item survives the filter exactly when it was returned and the filter admits it. */
  lemma {:induction false} KeepMembers(items: seq<Item>, f: Filter, x: Item)
    ensures x in Keep(items, f) <==> x in items && Admits(f, x)
  {
    if items != [] {
      KeepMembers(items[1..], f, x);
      assert items == [items[0]] + items[1..];
    }
  }

  /** Nothing survives the filter exactly when the filter rejects every returned item. */
  lemma {:induction false} KeepEmpty(items: seq<Item>, f: Filter)
    ensures Keep(items, f) == [] <==> forall x :: x in items ==> !Admits(f, x)
  {
    forall x | x in items
      ensures x in Keep(items, f) <==> Admits(f, x)
    {
      KeepMembers(items, f, x);
    }
    if Keep(items, f) != [] {
      KeepMembers(items, f, Keep(items, f)[0]);
    }
  }

  /** Without a filter every returned item is kept, in order. */
  lemma {:induction false} KeepNoFilter(items: seq<Item>)
    ensures Keep(items, NoFilter) == items
  {
    if items != [] {
      KeepNoFilter(items[1..]);
      assert items == [items[0]] + items[1..];
    }
  }

  /** The views row keeps exactly the returned items whose collection type is not music, books or games. */
  lemma {:induction false} ViewsKept(items: seq<Item>, x: Item)
    ensures x in Keep(items, ViewTypes) <==>
              x in items && x.collectionType !in {Some("music"), Some("books"), Some("games")}
  {
    KeepMembers(items, ViewTypes, x);
  }

  /** The upcoming row keeps exactly the returned items with no series id, or of the queried series, or all when no series is queried. */
  lemma {:induction false} UpcomingKept(items: seq<Item>, parentId: Option<string>, x: Item)
    ensures x in Keep(items, SeriesOf(parentId)) <==>
              x in items && (parentId == None || x.seriesId == None || x.seriesId == parentId)
  {
    KeepMembers(items, SeriesOf(parentId), x);
  }

  /** Appending a chunk numbered from the row's length keeps every index equal to its position. */
  lemma {:induction false} AppendKeepsContiguous(rows: seq<RowItem>, items: seq<Item>)
    requires Contiguous(rows)
    ensures Contiguous(rows + Numbered(items, |rows|))
  {
    var r := rows + Numbered(items, |rows|);
    forall k | |rows| <= k < |r|
      ensures r[k].ItemRow? && r[k].index == k
    {
      NumberedAt(items, |rows|, k - |rows|);
    }
  }

  /**
   * A non-empty chunk numbered from `first` into an empty row lines indices up
   * with positions only when `first` is 0: a list cleared without resetting its
   * offset is numbered from the stale offset.
   */
  lemma {:induction false} ClearedRowContiguous(items: seq<Item>, first: int)
    ensures Contiguous(Numbered(items, first)) <==> items == [] || first == 0
  {
    if items != [] {
      NumberedAt(items, first, 0);
      if first == 0 {
        forall k | 0 <= k < |items|
          ensures Numbered(items, 0)[k] == ItemRow(k, items[k])
        {
          NumberedAt(items, 0, k);
        }
      }
    }
  }
}
