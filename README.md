# ScreenScape core, modelled in Dafny

ScreenScape is an iOS app that shows a feed of popular movies from The Movie
Database, lets the user mark movies as favourites (kept in Core Data), and
shows a movie's details. This project models the parts of the app that decide
what appears on screen:

- **The staggered ("Pinterest") collection-view layout.** `PinterestLayout`
  places section headers, cells and footers. Each cell goes at the top of the
  leftmost shortest column. Item heights are cached in `cellHeightCacheArray`,
  so the height provider is asked only on a cache miss. `calculationIndex`
  empties that cache from the third section pass on. The layout also reacts to
  invalidation, to `prepare`, to collection-view updates and to rectangle
  queries.
  - `LayoutSpec` describes one pass as pure functions.
  - `PinterestLayoutEngine.PinterestLayout` is a class with the layout's own
    fields. Its loops are proved to end in the state `LayoutSpec` describes.
  - `LayoutExample` works through two concrete passes.
- **The two feeds' list rules** (`FeedLists` and the two view-model classes):
  - a placeholder entity is inserted at index 1 so the grid looks staggered;
  - refreshing resets the page to 1 and "more" appends the next page;
  - saving or removing a favourite flips the flag of the first entity with that
    id;
  - the favourites feed drops that entity instead.
- **The remote data source** (`MovieRemoteDataSource`):
  - fetched items are marked as favourites when a stored record has the same
    id;
  - saving updates the first matching record or appends a new one;
  - removing deletes every matching record;
  - stored records are read back as entities, with `-1` and `"-"` as defaults;
  - the discover query is built here.
- **The runtime label** of the details screen (`RuntimeFormat`): Swift's
  truncating `/` and `%` by 60, then "m mins", "h hr" or "h hr m mins".
  `Decimal` models `String(n)` and `Int(text)`.
- **`InfiniteScrollManager`** (`InfiniteScroll`): fires the load-more action
  once the user scrolls 50 points beyond the end of the content (past the
  bottom-most resting offset), and `isLoadingMore` stops it from firing again
  until `reset()`.

`CGFloat` is an exact `real`. Swift's `Int` is an unbounded `int` together with
the 64-bit range predicate `Decimal.InIntRange`, which is used where the range
matters (`Int(text)` rejects values outside it). Core Data's store is a
sequence of `StoredMovie` records.

On the layout's worked example (two columns, heights 100, 200 and 50, padding
10) the code gives a content height of 200: the largest cell bottom. The
trailing `cellPadding` is never added. `LayoutExample.ExamplePass` proves this
value. The model follows the code.

## Model

| member | source | states |
|---|---|---|
| `LayoutGeometry.Rect.MaxY` | sv-screenscape-app/presentation/utilities/PrinterestLayout.swift:171 | `maxY` is the bottom edge for either sign of height: the larger of `y` and `y + height` |
| `LayoutGeometry.IsEqualIffSame` | sv-screenscape-app/presentation/utilities/PrinterestLayout.swift:287-294 | `isEqual` holds exactly when the other object is an attributes record equal in every field (including `cellHeight`); it never holds for a non-attributes object |
| `LayoutGeometry.CellHeightMatters` | sv-screenscape-app/presentation/utilities/PrinterestLayout.swift:289-291 | two records the base class calls equal are still unequal when their `cellHeight` differs |
| `LayoutGeometry.IsEqual` | sv-screenscape-app/presentation/utilities/PrinterestLayout.swift:287-294 | `isEqual(_:)`: true exactly for another attributes record with the same `cellHeight` that the base class calls equal (same kind, index path and frame); `nil` or another class is never equal. Its partner `IsEqualIffSame` proves this is field-by-field equality |
| `LayoutGeometry.Rect.Intersects` | sv-screenscape-app/presentation/utilities/PrinterestLayout.swift:263 | `frame.intersects(rect)` as an overlap of the interiors on both axes; the laws it obeys are in `IntersectsLaws` |
| `LayoutGeometry.IntersectsLaws` | sv-screenscape-app/presentation/utilities/PrinterestLayout.swift:263 | intersection is symmetric, a rectangle with an area meets itself, and a rectangle ending at or above another's top does not meet it (cells stacked in one column never intersect) |
| `LayoutSpec.Max` | sv-screenscape-app/presentation/utilities/PrinterestLayout.swift:215 | `max` is an upper bound of both arguments and equals one of them |
| `LayoutSpec.Repeat` | sv-screenscape-app/presentation/utilities/PrinterestLayout.swift:174-177 | `[CGFloat](repeating:count:)` has `count` entries, all equal to the value |
| `LayoutSpec.XOffsets` | sv-screenscape-app/presentation/utilities/PrinterestLayout.swift:128-132 | one x offset per column |
| `LayoutSpec.ColumnsTileContentWidth` | sv-screenscape-app/presentation/utilities/PrinterestLayout.swift:126-132 | `n` column widths plus `n - 1` spacings make up exactly the content width; the first column starts at 0 and the last ends at the content width |
| `LayoutSpec.AdjacentColumns` | sv-screenscape-app/presentation/utilities/PrinterestLayout.swift:128-132 | adjacent columns start one column width plus one spacing apart |
| `LayoutSpec.ColumnWidth` | sv-screenscape-app/presentation/utilities/PrinterestLayout.swift:126-127 | `collumnWidth`, the width of every column and cell: `n` of them plus the `n - 1` spacings add up to the content width |
| `LayoutSpec.MinOffset` | sv-screenscape-app/presentation/utilities/PrinterestLayout.swift:188 | `yOffsets.min()` is nil exactly for an empty array |
| `LayoutSpec.MinOffsetIsMinimum` | sv-screenscape-app/presentation/utilities/PrinterestLayout.swift:188 | the minimum is one of the offsets and no offset is below it |
| `LayoutSpec.FirstIndexOf` | sv-screenscape-app/presentation/utilities/PrinterestLayout.swift:188 | `firstIndex(of:)` returns an index inside the array |
| `LayoutSpec.FirstIndexOfIsFirst` | sv-screenscape-app/presentation/utilities/PrinterestLayout.swift:188 | it finds an occurrence exactly when one exists, and no earlier entry equals the value |
| `LayoutSpec.ShortestColumn` | sv-screenscape-app/presentation/utilities/PrinterestLayout.swift:188 | the chosen column lies inside `yOffsets`; 0 when there are no columns |
| `LayoutSpec.ShortestColumnIsLeftmostMinimum` | sv-screenscape-app/presentation/utilities/PrinterestLayout.swift:188 | no column is shorter than the chosen one, and every column to its left is strictly taller (ties go to the leftmost) |
| `LayoutSpec.LookUpHeight` | sv-screenscape-app/presentation/utilities/PrinterestLayout.swift:190-198 | the cache lookup: a hit leaves the state alone; a miss appends the provider's answer for the item at the cell width and logs the call (stated for a whole section by `HeightCacheKeepsEntries`, `HeightCacheFillsMisses` and `ProviderCalledOnlyOnCacheMiss`) |
| `LayoutSpec.PlaceCell` | sv-screenscape-app/presentation/utilities/PrinterestLayout.swift:188-216 | the cell frame at the leftmost shortest column's x and y, a column wide and as tall as the cached height, with `cellHeight` set; that column moves down and `contentHeight` takes the cell's bottom if lower (stated in full by `PlaceItemStep`) |
| `LayoutSpec.PlaceItem` | sv-screenscape-app/presentation/utilities/PrinterestLayout.swift:186-216 | one iteration of the item loop: the height lookup, then the placement; `PlaceItemStep` states its whole effect |
| `LayoutSpec.PlaceItems` | sv-screenscape-app/presentation/utilities/PrinterestLayout.swift:185-217 | the item loop keeps one offset per column, and the height cache ends up covering every item index of the section |
| `LayoutSpec.PlaceItemStep` | sv-screenscape-app/presentation/utilities/PrinterestLayout.swift:186-216 | one item: it goes to the leftmost shortest column; exactly one cell at that column's x and y, column width wide, is appended; only that column moves, by height plus `cellPadding`; `contentHeight` becomes the max of itself and the cell's bottom; the provider is asked, and its answer appended, only when the cache has no entry for the item |
| `LayoutSpec.PlaceItemsKeepsPassCount` | sv-screenscape-app/presentation/utilities/PrinterestLayout.swift:185-217 | the item loop never changes `calculationIndex` |
| `LayoutSpec.HeightCacheKeepsEntries` | sv-screenscape-app/presentation/utilities/PrinterestLayout.swift:190-198 | entries already in the height cache are never overwritten |
| `LayoutSpec.HeightCacheFillsMisses` | sv-screenscape-app/presentation/utilities/PrinterestLayout.swift:190-198 | each index missing from the cache is filled with the provider's answer for that item at the cell width |
| `LayoutSpec.CacheMisses` | sv-screenscape-app/presentation/utilities/PrinterestLayout.swift:190-198 | the items the provider is asked about are the uncached indices `cached .. n - 1`, in order |
| `LayoutSpec.ProviderCalledOnlyOnCacheMiss` | sv-screenscape-app/presentation/utilities/PrinterestLayout.swift:190-198 | over a whole section the provider is called exactly once per uncached item, in item order, and never for a cached one |
| `LayoutSpec.OneCellPerItem` | sv-screenscape-app/presentation/utilities/PrinterestLayout.swift:200-213 | the item loop appends exactly one record per item and keeps what `cache` already held |
| `LayoutSpec.ItemCell` | sv-screenscape-app/presentation/utilities/PrinterestLayout.swift:188-213 | item `i`'s record is a cell in the leftmost shortest column of the columns left after items `0 .. i - 1`, and is as tall as the item's cached-or-provided height |
| `LayoutSpec.LastItemHeight` | sv-screenscape-app/presentation/utilities/PrinterestLayout.swift:190-205 | item `i` is placed with its cache entry from before the section when there is one, else with the provider's answer |
| `LayoutSpec.CellsAppendedInOrder` | sv-screenscape-app/presentation/utilities/PrinterestLayout.swift:185-217 | the records appended by the loop are, in order, the cells of items `0 .. n - 1`: each a column wide, at some column's x offset, with its height |
| `LayoutSpec.ContentHeightIsTallestBottom` | sv-screenscape-app/presentation/utilities/PrinterestLayout.swift:215 | after the loop `contentHeight` is the larger of its value before the loop and the bottom of every placed cell; the trailing padding does not count |
| `LayoutSpec.TallestBottomPrefix` | sv-screenscape-app/presentation/utilities/PrinterestLayout.swift:215 | the tallest bottom of a prefix of the cells is no larger than that of all of them |
| `LayoutSpec.ContentHeightNeverDecreases` | sv-screenscape-app/presentation/utilities/PrinterestLayout.swift:215 | `contentHeight` never decreases while items are placed |
| `LayoutSpec.PlaceItemsExtends` | sv-screenscape-app/presentation/utilities/PrinterestLayout.swift:185-217 | placing more items only appends to `cache` |
| `LayoutSpec.ColumnsWithinContentHeight` | sv-screenscape-app/presentation/utilities/PrinterestLayout.swift:174-216 | columns that start no lower than `contentHeight` stay within one `cellPadding` of it |
| `LayoutSpec.HeaderSize` | sv-screenscape-app/presentation/utilities/PrinterestLayout.swift:137-149 | the header size: the delegate's answer when it implements the method, else the reference height across the full content width when the reference size is non-zero, else zero (placement stated by `HeaderPlacement`) |
| `LayoutSpec.PlaceHeader` | sv-screenscape-app/presentation/utilities/PrinterestLayout.swift:151-172 | a non-zero header is appended centred at the content height, one `sectionPadding` lower after section 0, and `contentHeight` moves to its bottom plus `sectionPadding`; a zero header changes nothing (`HeaderPlacement`) |
| `LayoutSpec.CountPass` | sv-screenscape-app/presentation/utilities/PrinterestLayout.swift:179-183 | `calculationIndex += 1`, and from 3 on the height cache is emptied (`SectionHeightCache`) |
| `LayoutSpec.FooterSize` | sv-screenscape-app/presentation/utilities/PrinterestLayout.swift:219-231 | the footer size, chosen like the header size (`FooterPlacement`) |
| `LayoutSpec.PlaceFooter` | sv-screenscape-app/presentation/utilities/PrinterestLayout.swift:232-249 | a non-zero footer is appended centred one `sectionPadding` below the content and `contentHeight` moves to its bottom; a zero footer changes nothing (`FooterPlacement`) |
| `LayoutSpec.SectionStart` | sv-screenscape-app/presentation/utilities/PrinterestLayout.swift:137-183 | after the header every column starts at the same offset, and there is one offset per column |
| `LayoutSpec.LayoutSection` | sv-screenscape-app/presentation/utilities/PrinterestLayout.swift:134-250 | one section: header, equal column starts, pass count, items, footer; `SectionHeightCache` states its effect on the height cache and pass count |
| `LayoutSpec.LayoutSections` | sv-screenscape-app/presentation/utilities/PrinterestLayout.swift:134 | the sections in order; `PassesCounted` proves `k` sections raise `calculationIndex` by `k` |
| `LayoutSpec.Rebuild` | sv-screenscape-app/presentation/utilities/PrinterestLayout.swift:120-253 | the state `update()` ends in (`PinterestLayout.Update` is proved to end there); it ignores the old geometry (`RebuildIgnoresOldGeometry`) and counts one pass per section (`RebuildCountsPasses`) |
| `LayoutSpec.HeaderPlacement` | sv-screenscape-app/presentation/utilities/PrinterestLayout.swift:137-177 | a zero header adds nothing; any other header is centred at the content height (one `sectionPadding` lower after the first section), and every column starts below it plus `sectionPadding` |
| `LayoutSpec.SectionHeightCache` | sv-screenscape-app/presentation/utilities/PrinterestLayout.swift:179-198 | a section raises `calculationIndex` by one and leaves every item of the section cached; from the third pass on the cache holds exactly the provider's fresh answers, and before that old entries are kept |
| `LayoutSpec.FooterPlacement` | sv-screenscape-app/presentation/utilities/PrinterestLayout.swift:219-249 | a zero footer changes nothing; any other footer is centred one `sectionPadding` below the content, and `contentHeight` moves to its bottom |
| `LayoutSpec.PassesCounted` | sv-screenscape-app/presentation/utilities/PrinterestLayout.swift:133-183 | laying out `k` sections raises `calculationIndex` by `k` |
| `LayoutSpec.RebuildIgnoresOldGeometry` | sv-screenscape-app/presentation/utilities/PrinterestLayout.swift:122-124 | `update()` does not depend on the old `cache` and `contentHeight`, only on the height cache, the pass count and the provider log |
| `LayoutSpec.RebuildCountsPasses` | sv-screenscape-app/presentation/utilities/PrinterestLayout.swift:133-183 | one `update()` raises `calculationIndex` by the number of sections |
| `LayoutSpec.RebuildTimesCountsPasses` | sv-screenscape-app/presentation/utilities/PrinterestLayout.swift:89-114 | `k` updates in a row raise `calculationIndex` by `k` times the number of sections |
| `LayoutSpec.Intersecting` | sv-screenscape-app/presentation/utilities/PrinterestLayout.swift:260-266 | the query result holds exactly the cached records whose frames intersect the rectangle, each as often as in `cache`, and nothing else |
| `LayoutExample.ExamplePass` | sv-screenscape-app/presentation/utilities/PrinterestLayout.swift:185-216 | two columns and heights 100, 200, 50: the cells sit at (0, 0), (110, 0) and (0, 110), each height is asked for once, and the content height is 200 |
| `LayoutExample.ExampleSharedHeightCache` | sv-screenscape-app/presentation/utilities/PrinterestLayout.swift:179-198 | on the first pass, item 0 of section 1 takes section 0's cached height for item 0, and the provider is never asked about it |
| `PinterestLayoutEngine.DeleteCount` | sv-screenscape-app/presentation/utilities/PrinterestLayout.swift:95-98 | the number of `.delete` updates is at most the number of updates, and 0 exactly when there is none |
| `PinterestLayoutEngine.DeleteCountStep` | sv-screenscape-app/presentation/utilities/PrinterestLayout.swift:90-111 | each update raises the delete count by one if it is `.delete`, else by nothing |
| `PinterestLayoutEngine.ShouldInvalidateLayout` | sv-screenscape-app/presentation/utilities/PrinterestLayout.swift:116-118 | invalidate exactly when the new bounds differ in width or height |
| `PinterestLayoutEngine.ScrollingKeepsLayout` | sv-screenscape-app/presentation/utilities/PrinterestLayout.swift:116-118 | moving the bounds' origin (scrolling) never invalidates the layout |
| `PinterestLayoutEngine.ColumnXOffsets` | sv-screenscape-app/presentation/utilities/PrinterestLayout.swift:127-132 | the append loop builds exactly the column offsets `XOffsets` describes |
| `PinterestLayoutEngine.FilterIntersecting` | sv-screenscape-app/presentation/utilities/PrinterestLayout.swift:260-266 | the filtering loop returns exactly `Intersecting(cache, rect)` |
| `PinterestLayoutEngine.PinterestLayout.constructor` | sv-screenscape-app/presentation/utilities/PrinterestLayout.swift:21-38 | the defaults: 1 column, spacing, padding and section padding 12, zero reference sizes, empty caches, `calculationIndex` 0 |
| `PinterestLayoutEngine.PinterestLayout.ContentSize` | sv-screenscape-app/presentation/utilities/PrinterestLayout.swift:45-50 | the content size is the content width by `contentHeight` |
| `PinterestLayoutEngine.PinterestLayout.InvalidateLayout` | sv-screenscape-app/presentation/utilities/PrinterestLayout.swift:74-79 | empties `cache` and zeroes `contentHeight`; the height cache and pass count stay |
| `PinterestLayoutEngine.PinterestLayout.Update` | sv-screenscape-app/presentation/utilities/PrinterestLayout.swift:120-253 | the fields end as `Rebuild` of the old state; the configuration is unchanged; the delegate hears `updating: true` and then `false` |
| `PinterestLayoutEngine.PinterestLayout.LayOutSection` | sv-screenscape-app/presentation/utilities/PrinterestLayout.swift:133-250 | one iteration of the section loop ends in `LayoutSection` of the old state |
| `PinterestLayoutEngine.PinterestLayout.PlaceSectionHeader` | sv-screenscape-app/presentation/utilities/PrinterestLayout.swift:135-172 | the header step ends in `PlaceHeader` of the old state |
| `PinterestLayoutEngine.PinterestLayout.PlaceSectionItems` | sv-screenscape-app/presentation/utilities/PrinterestLayout.swift:185-217 | the item loop ends in `PlaceItems` of the starting columns and state |
| `PinterestLayoutEngine.PinterestLayout.PlaceSectionItem` | sv-screenscape-app/presentation/utilities/PrinterestLayout.swift:186-216 | one loop body ends in `PlaceItem` of the columns and state before it |
| `PinterestLayoutEngine.PinterestLayout.PlaceSectionFooter` | sv-screenscape-app/presentation/utilities/PrinterestLayout.swift:219-249 | the footer step ends in `PlaceFooter` of the old state |
| `PinterestLayoutEngine.PinterestLayout.Prepare` | sv-screenscape-app/presentation/utilities/PrinterestLayout.swift:81-87 | with an empty cache, `prepare()` runs one update; otherwise nothing changes |
| `PinterestLayoutEngine.PinterestLayout.ApplyUpdateAction` | sv-screenscape-app/presentation/utilities/PrinterestLayout.swift:91-110 | `.delete` runs an update, `.none` changes nothing, and every other action only clears `cache` and `contentHeight` |
| `PinterestLayoutEngine.PinterestLayout.PrepareForCollectionViewUpdates` | sv-screenscape-app/presentation/utilities/PrinterestLayout.swift:89-114 | the layout ends as `1 +` (number of deletes) updates of the old state, with two updating notices per update |
| `PinterestLayoutEngine.PinterestLayout.LayoutAttributesForElements` | sv-screenscape-app/presentation/utilities/PrinterestLayout.swift:255-269 | updates first when the cache is empty, then returns exactly the cached records that intersect the rectangle |
| `MovieEntities.FirstIndexOfId` | sv-screenscape-app/presentation/movie/movie-list/MovieListViewModel.swift:65 | `firstIndex(where: { $0.id == id })` returns an index inside the list |
| `MovieEntities.FirstIndexOfIdIsFirst` | sv-screenscape-app/presentation/movie/movie-list/MovieListViewModel.swift:65 | it finds an entity exactly when one has the id, the entity there has it, and none before it does |
| `FeedLists.RemoveAt` | sv-screenscape-app/presentation/movie/favorite-movie-list/FavoriteMovieListViewModel.swift:51 | `remove(at:)` shortens the list by one, keeps the entities before `i` and shifts the rest down |
| `FeedLists.WithPlaceholder` | sv-screenscape-app/presentation/movie/movie-list/MovieListViewModel.swift:34-39 | an empty list stays empty; otherwise the list grows by one with the placeholder at index 1 |
| `FeedLists.PlaceholderRoundTrip` | sv-screenscape-app/presentation/movie/movie-list/MovieListViewModel.swift:36-39 | the first entity stays first, the rest follow the placeholder, and removing index 1 gives the fetched list back |
| `FeedLists.MarkFirst` | sv-screenscape-app/presentation/movie/movie-list/MovieListViewModel.swift:64-67 | marking keeps the list's length |
| `FeedLists.MarkFirstChangesOnlyFirstMatch` | sv-screenscape-app/presentation/movie/movie-list/MovieListViewModel.swift:64-67 | with no entity of that id nothing changes; otherwise only the first such entity changes, and only in `isFavorite` |
| `FeedLists.MarkFirstKeepsIds` | sv-screenscape-app/presentation/movie/movie-list/MovieListViewModel.swift:66 | marking never changes an id |
| `FeedLists.SameIdsSameFirstIndex` | sv-screenscape-app/presentation/movie/movie-list/MovieListViewModel.swift:65 | lists with the same ids position by position have the same first match |
| `FeedLists.SaveThenRemoveRestores` | sv-screenscape-app/presentation/movie/movie-list/MovieListViewModel.swift:62-83 | saving and then removing a movie that was not a favourite restores the list |
| `FeedLists.MarkFirstIdempotent` | sv-screenscape-app/presentation/movie/movie-list/MovieListViewModel.swift:64-67 | marking twice with the same flag is the same as marking once |
| `FeedLists.RemoveFirstDropsFirstMatch` | sv-screenscape-app/presentation/movie/favorite-movie-list/FavoriteMovieListViewModel.swift:49-52 | with a match the list loses exactly its first entity with the id, as a multiset too, and keeps the others in order; without one it is unchanged |
| `FeedLists.RemoveFirst` | sv-screenscape-app/presentation/movie/favorite-movie-list/FavoriteMovieListViewModel.swift:49-52 | `remove(at:)` of the first entity with the id, nothing without one; `RemoveFirstDropsFirstMatch` states exactly what is lost and kept |
| `MovieListViewModels.MovieListViewModel.constructor` | sv-screenscape-app/presentation/movie/movie-list/MovieListViewModel.swift:18-20 | starts on page 1 with an empty list |
| `MovieListViewModels.MovieListViewModel.RequestRefresh` | sv-screenscape-app/presentation/movie/movie-list/MovieListViewModel.swift:27-31 | refresh resets `currentPage` to 1 and requests that page |
| `MovieListViewModels.MovieListViewModel.RequestMore` | sv-screenscape-app/presentation/movie/movie-list/MovieListViewModel.swift:45-49 | "more" increments `currentPage` and requests the new page |
| `MovieListViewModels.MovieListViewModel.OnRefreshResult` | sv-screenscape-app/presentation/movie/movie-list/MovieListViewModel.swift:32-41 | the published list is the fetched page with the placeholder |
| `MovieListViewModels.MovieListViewModel.OnMoreResult` | sv-screenscape-app/presentation/movie/movie-list/MovieListViewModel.swift:50-55 | the new page is appended to the current list and published |
| `MovieListViewModels.MovieListViewModel.OnSaved` | sv-screenscape-app/presentation/movie/movie-list/MovieListViewModel.swift:62-69 | the first entity with the id becomes a favourite; the list is republished only when there was one |
| `MovieListViewModels.MovieListViewModel.OnRemoved` | sv-screenscape-app/presentation/movie/movie-list/MovieListViewModel.swift:76-83 | the first entity with the id stops being a favourite; the list is republished only when there was one |
| `MovieListViewModels.MovieListViewModel.SetFavorite` | sv-screenscape-app/presentation/movie/movie-list/MovieListViewModel.swift:63-68 | the shared body of both handlers: mark the first match and publish only if there was one |
| `FavoriteMovieListViewModels.FavoriteMovieListViewModel.OnFetched` | sv-screenscape-app/presentation/movie/favorite-movie-list/FavoriteMovieListViewModel.swift:31-40 | the published list is the favourites with the placeholder |
| `FavoriteMovieListViewModels.FavoriteMovieListViewModel.OnRemoved` | sv-screenscape-app/presentation/movie/favorite-movie-list/FavoriteMovieListViewModel.swift:47-54 | the first entity with the id is dropped; the list is republished only when there was one |
| `FavoriteMovieListViewModels.FavoriteMovieListViewModel.constructor` | sv-screenscape-app/presentation/movie/favorite-movie-list/FavoriteMovieListViewModel.swift:17 | the output relay starts as an empty list and nothing has been published |
| `MovieRemoteDataSource.FirstStored` | sv-screenscape-app/data/movie/remote/MovieRemoteDataSource.swift:67 | `first(where: { $0.movieId == String(id) })` returns an index inside the store |
| `MovieRemoteDataSource.FirstStoredIsFirst` | sv-screenscape-app/data/movie/remote/MovieRemoteDataSource.swift:79 | it finds a record exactly when one matches, and no earlier record matches |
| `MovieRemoteDataSource.MarkFavorites` | sv-screenscape-app/data/movie/remote/MovieRemoteDataSource.swift:62-73 | one entity per fetched item |
| `MovieRemoteDataSource.MarkFavoritesPerItem` | sv-screenscape-app/data/movie/remote/MovieRemoteDataSource.swift:63-71 | each entity keeps the item's id and title, its poster URL is built from the image base plus the poster path, and it is a favourite exactly when a stored record has the item's id |
| `MovieRemoteDataSource.EntityOfItem` | sv-screenscape-app/data/movie/remote/MovieRemoteDataSource.swift:63-71 | one fetched item as an entity; `MarkFavoritesPerItem` proves id and title copied, poster URL from the image base plus the poster path, favourite iff stored |
| `MovieRemoteDataSource.NewRecord` | sv-screenscape-app/data/movie/remote/MovieRemoteDataSource.swift:83-86 | the record a first save creates: id `String(id)`, the title and the poster; `UpsertedSpec` proves it is what gets appended and `SavedMovieIsListed` that it reads back as the movie |
| `MovieRemoteDataSource.Upserted` | sv-screenscape-app/data/movie/remote/MovieRemoteDataSource.swift:79-87 | the store after a save; `UpsertedSpec` states it: the movie is stored, a first match gets the new title and poster and nothing else changes, otherwise exactly one new record is appended |
| `MovieRemoteDataSource.UpsertedSpec` | sv-screenscape-app/data/movie/remote/MovieRemoteDataSource.swift:79-87 | afterwards the movie is stored. An existing first match gets the new title and poster, and nothing else changes. Otherwise exactly one new record is appended, with id `String(id)`, the title and the poster |
| `MovieRemoteDataSource.WithoutMovie` | sv-screenscape-app/data/movie/remote/MovieRemoteDataSource.swift:96-103 | every record with the id is deleted and every other record is kept, as often as before |
| `MovieRemoteDataSource.EntityOfRecord` | sv-screenscape-app/data/movie/remote/MovieRemoteDataSource.swift:120 | one stored record as a favourite entity: the parsed id or -1, the title or "-", the poster; `FavoritesAsEntities` and `FavoriteDefaults` state each branch |
| `MovieRemoteDataSource.FavoritesAsEntities` | sv-screenscape-app/data/movie/remote/MovieRemoteDataSource.swift:116-123 | one entity per stored record, in order, each a favourite with the record's poster, the record's id when it parses as an `Int`, and the record's title when it has one |
| `MovieRemoteDataSource.FavoriteDefaults` | sv-screenscape-app/data/movie/remote/MovieRemoteDataSource.swift:120 | a missing or unparsable id reads as -1, and a missing title as "-" |
| `MovieRemoteDataSource.SavedMovieIsListed` | sv-screenscape-app/data/movie/remote/MovieRemoteDataSource.swift:76-123 | after a save the favourites list holds the movie with its id, title and poster, marked favourite |
| `MovieRemoteDataSource.SavedMovieIsMarked` | sv-screenscape-app/data/movie/remote/MovieRemoteDataSource.swift:62-92 | after a save, a fetched item with the movie's id is marked favourite |
| `MovieRemoteDataSource.RemovedMovieIsUnmarked` | sv-screenscape-app/data/movie/remote/MovieRemoteDataSource.swift:62-114 | after a remove, a fetched item with the movie's id is not marked favourite |
| `MovieRemoteDataSource.DiscoverQuery` | sv-screenscape-app/data/movie/remote/MovieRemoteDataSource.swift:136-147 | the discover query has six items |
| `MovieRemoteDataSource.DiscoverQueryNamesPage` | sv-screenscape-app/data/movie/remote/MovieRemoteDataSource.swift:136-147 | no parameter name occurs twice, and the `page` parameter's value parses back to the requested page |
| `MovieRemoteDataSource.DiscoverQueryInjective` | sv-screenscape-app/data/movie/remote/MovieRemoteDataSource.swift:143 | different pages give different queries |
| `MovieRemoteDataSource.FavoriteStore.constructor` | sv-screenscape-app/data/movie/remote/MovieRemoteDataSource.swift:125-134 | the store holds exactly the records `fetchCoreDataFavoriteMovies` finds persisted |
| `MovieRemoteDataSource.FavoriteStore.Save` | sv-screenscape-app/data/movie/remote/MovieRemoteDataSource.swift:76-92 | the records become the upsert of the movie into the old records |
| `MovieRemoteDataSource.FavoriteStore.Remove` | sv-screenscape-app/data/movie/remote/MovieRemoteDataSource.swift:94-114 | the delete loop leaves exactly the old records without the movie's id |
| `MovieRemoteDataSource.FavoriteStore.FetchFavoriteMovies` | sv-screenscape-app/data/movie/remote/MovieRemoteDataSource.swift:116-123 | one entity per stored record, each a favourite with the record's poster, its parsed id when `movieId` parses and its title when present |
| `Decimal.NatToString` | sv-screenscape-app/presentation/movie/movie-details/MovieDetailsViewController.swift:70 | decimal digits with no leading zero; a single digit exactly below 10 |
| `Decimal.IntToString` | sv-screenscape-app/data/movie/remote/MovieRemoteDataSource.swift:84 | `String(n)` starts with a minus sign exactly for negatives and ends in a digit |
| `Decimal.ParseInt` | sv-screenscape-app/data/movie/remote/MovieRemoteDataSource.swift:120 | `Int(text)` only yields 64-bit values |
| `Decimal.ParseIntRoundTrip` | sv-screenscape-app/data/movie/remote/MovieRemoteDataSource.swift:84-120 | `Int(String(n)) == n` for every 64-bit `n`, so a stored id reads back as the saved id |
| `Decimal.IntToStringInjective` | sv-screenscape-app/data/movie/remote/MovieRemoteDataSource.swift:67 | `String(a) == String(b)` exactly when `a == b`, so the id match is exact |
| `Decimal.IntToStringHasNoSpace` | sv-screenscape-app/presentation/movie/movie-details/MovieDetailsViewController.swift:70-74 | a rendered number holds no space |
| `RuntimeFormat.SplitMinutes` | sv-screenscape-app/presentation/movie/movie-details/MovieDetailsViewController.swift:66-67 | truncating `/` and `%` by 60 rebuild the minutes; the remainder has the minutes' sign and lies in (-60, 60); the hours are 0 exactly under an hour |
| `RuntimeFormat.RuntimeLabelRoundTrip` | sv-screenscape-app/presentation/movie/movie-details/MovieDetailsViewController.swift:69-75 | each of the three label forms reads back as `hours * 60 + minutes` |
| `RuntimeFormat.RuntimeRoundTrip` | sv-screenscape-app/presentation/movie/movie-details/MovieDetailsViewController.swift:65-76 | every 64-bit runtime is read back from its label |
| `RuntimeFormat.RuntimeLabelInjective` | sv-screenscape-app/presentation/movie/movie-details/MovieDetailsViewController.swift:65-76 | two runtimes get the same label exactly when they are equal |
| `RuntimeFormat.RuntimeLabelForm` | sv-screenscape-app/presentation/movie/movie-details/MovieDetailsViewController.swift:66-75 | under an hour (either sign): "m mins"; a whole number of hours: "h hr"; otherwise "h hr m mins" with truncated hours and the remainder's sign, so a negative runtime of an hour or more shows two minus signs |
| `RuntimeFormat.NinetyMinutesLabels` | sv-screenscape-app/presentation/movie/movie-details/MovieDetailsViewController.swift:65-76 | 90 minutes is labelled "1 hr 30 mins" and -90 minutes "-1 hr -30 mins" |
| `RuntimeFormat.ConvertMinutesToTimeString` | sv-screenscape-app/presentation/movie/movie-details/MovieDetailsViewController.swift:65-76 | `convertMinutesToTimeString`: truncating split by 60, then the label; `RuntimeRoundTrip` proves every 64-bit runtime is read back from it and `RuntimeLabelForm` gives its three forms |
| `RuntimeFormat.RuntimeLabel` | sv-screenscape-app/presentation/movie/movie-details/MovieDetailsViewController.swift:69-75 | the three-way branch on hours and remaining minutes; `RuntimeLabelRoundTrip` proves each form reads back as `hours * 60 + minutes` |
| `RuntimeFormat.WordsOfJoined` | sv-screenscape-app/presentation/movie/movie-details/MovieDetailsViewController.swift:70-74 | splitting space-free words joined by single spaces gives back the words |
| `InfiniteScroll.Next` | sv-screenscape-app/presentation/utilities/InfiniteScrollManager.swift:27-50 | an event fires only for an offset while not loading, and sets the flag; an offset short of the threshold changes nothing and does not fire |
| `InfiniteScroll.AtMostOneFireBetweenResets` | sv-screenscape-app/presentation/utilities/InfiniteScrollManager.swift:35-37 | between resets the action runs at most once, never when already loading, and after it ran the flag stays set |
| `InfiniteScroll.DisabledNeverFires` | sv-screenscape-app/presentation/utilities/InfiniteScrollManager.swift:48-50 | after `disableInfiniteScroll()` nothing fires until the next reset |
| `InfiniteScroll.ResetRearms` | sv-screenscape-app/presentation/utilities/InfiniteScrollManager.swift:44-46 | after `reset()` the next offset past the threshold fires |
| `InfiniteScroll.InfiniteScrollManager.constructor` | sv-screenscape-app/presentation/utilities/InfiniteScrollManager.swift:14 | starts not loading |
| `InfiniteScroll.InfiniteScrollManager.OnContentOffset` | sv-screenscape-app/presentation/utilities/InfiniteScrollManager.swift:27-39 | fires exactly when the offset reaches `contentHeight + bottomInset - viewHeight + 50` while not loading, and then sets the flag |
| `InfiniteScroll.InfiniteScrollManager.ResetLoading` | sv-screenscape-app/presentation/utilities/InfiniteScrollManager.swift:44-46 | clears the flag |
| `InfiniteScroll.InfiniteScrollManager.DisableInfiniteScroll` | sv-screenscape-app/presentation/utilities/InfiniteScrollManager.swift:48-50 | sets the flag |

## Left out

- **UIKit.**
  - The collection view, its bounds, insets and item counts are the `Host` value: the content width, the item count per section, and the delegate's optional header and footer size methods.
  - The height provider is a deterministic function of the index path and the width, otherwise arbitrary. The app's provider can return a random height for a cell whose image is not yet measured, so its answers can change between updates; the model does not capture that.
  - `super` calls (`prepare`, `invalidateLayout`) are not modelled.
  - `layoutAttributesClass` and `copy(with:)` are not modelled.
  - `collectionView` force unwrapping is not modelled.
- **The updating notices.** `pintrestCollectionViewLayoutUpdating` is a ghost log of booleans, not a call into the delegate.
- **`PinterestLayoutEngine.PinterestLayout.Update` requires `numberOfColumns >= 1`.** With 0 columns the Swift code divides by zero and crashes on `xOffsets[0]` as soon as a section has an item. With a negative count the range `0 ..< numberOfColumns` traps. The model does not capture the 0-column case with no items, which the source survives.
  - Prepare, PrepareForCollectionViewUpdates, ApplyUpdateAction and LayoutAttributesForElements carry the same requirement, because they may call `update()`.
- **Floating point.** `CGFloat` is an exact real: no rounding, no NaN, no infinities.
- **`LayoutGeometry.Rect.Intersects`** is the overlap of the open rectangles on both axes. Core Graphics' handling of null and infinite rectangles is not modelled.
- LayoutSpec.PlaceCell: stores the frame as built. `insetBy(dx: 0, dy: 0)` is the identity only for a non-negative width and height; Core Graphics first standardizes a rectangle, so a negative provider height or a negative column width gives a different stored frame in the app. `MaxY` and `Intersects` treat both forms alike, so the content height and the rectangle queries agree either way.
- **Configuration.** The configuration properties (`numberOfColumns`, the spacings, the reference sizes) are fields of `PinterestLayout`. They are set from outside the layout, so no modelled method changes them.
- **RxSwift.**
  - Subjects, relays, `flatMapLatest`, `skip(1)`, `distinctUntilChanged`, weak-self guards, activity and error tracking are all left out.
  - Each subscription's body is a method of the view-model or manager class, and a published value is appended to a ghost log.
  - The request a refresh or "more" starts is the page number the method returns.
- **`InfiniteScroll.InfiniteScrollManager.OnContentOffset`** takes the scroll view's offset, frame height, content height and bottom inset as parameters. The `action` closure is the returned boolean.
- **Network.**
  - `fetchData`'s request and decoding are not modelled: the fetched page is a parameter.
  - `fetchMovie` and `constructUrl(movieId:)` (the details request) are not modelled, since they only build a request and decode its answer.
  - `constructUrl(page:)` is modelled as its query items. The endpoint URL string and `URLComponents` encoding are left out.
- **Constants and parsing.** `Constants.apiKey` and `Constants.imageBaseUrlW500` are not part of this model; they are parameters. `URL(string:)` is a parameter function from string to optional URL string.
- **Core Data.**
  - The managed object context is a sequence of `StoredMovie` records.
  - Fetch errors and save errors are not modelled; the error path of the observable is left out.
  - The `NSPredicate` fetch in `removeMovieItemToCoreData` followed by deleting every result is modelled as filtering out the matching records.
  - The order of the records in the store is the order of insertion.
- **Layout examples.** The two `LayoutExample` lemmas are concrete instances. They are not general laws.
