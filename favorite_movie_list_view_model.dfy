/**
 * `FavoriteMovieListViewModel`: the list of favourites the favourites screen
 * publishes.  `data` is the output relay's value and `published` records
 * every value handed to its `accept`, in order.
 */
module FavoriteMovieListViewModels {
  import opened Wrappers
  import opened MovieEntities
  import opened FeedLists

  class FavoriteMovieListViewModel {
    var data: seq<MovieEntity>
    ghost var published: seq<seq<MovieEntity>>

    constructor()
      ensures data == [] && published == []
    {
      data := [];
      published := [];
    }

    /** The fetched favourites replace the list, with the placeholder at index 1 when there are any. */
    method OnFetched(fetched: seq<MovieEntity>)
      modifies this
      ensures data == WithPlaceholder(fetched) && published == old(published) + [data]
    {
      var modifiedData := fetched;
      if modifiedData != [] {
        modifiedData := modifiedData[..1] + [Placeholder] + modifiedData[1..];
      }
      data := modifiedData;
      published := published + [modifiedData];
    }

    /** A completed removal drops the first entity with the movie's id; no match publishes nothing. */
    method OnRemoved(movieItem: MovieEntity)
      modifies this
      ensures data == RemoveFirst(old(data), movieItem.id)
      ensures published == if HasId(old(data), movieItem.id) then old(published) + [data] else old(published)
    {
      var currentData := data;
      FirstIndexOfIdIsFirst(currentData, movieItem.id);
      var index := FirstIndexOfId(currentData, movieItem.id);
      if index.Some? {
        currentData := currentData[..index.value] + currentData[index.value + 1..];
        data := currentData;
        published := published + [currentData];
      }
    }
  }
}
