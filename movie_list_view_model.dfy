/**
 * `MovieListViewModel`: the page counter and the movie list the discover
 * feed publishes.  Each Rx callback body is a method; `data` is the value
 * held by the output relay and `published` records every value handed to
 * the relay's `accept`, in order.
 */
module MovieListViewModels {
  import opened Wrappers
  import opened MovieEntities
  import opened FeedLists

  class MovieListViewModel {
    var currentPage: int
    var data: seq<MovieEntity>
    ghost var published: seq<seq<MovieEntity>>

    /** A new view model: page 1, an empty list, nothing published yet. */
    constructor()
      ensures currentPage == 1 && data == [] && published == []
    {
      currentPage := 1;
      data := [];
      published := [];
    }

    /** A refresh request: back to page 1, which is the page fetched. */
    method RequestRefresh() returns (page: int)
      modifies this
      ensures currentPage == 1 && page == currentPage
      ensures data == old(data) && published == old(published)
    {
      currentPage := 1;
      page := currentPage;
    }

    /** A load-more request: the next page, which is the page fetched. */
    method RequestMore() returns (page: int)
      modifies this
      ensures currentPage == old(currentPage) + 1 && page == currentPage
      ensures data == old(data) && published == old(published)
    {
      currentPage := currentPage + 1;
      page := currentPage;
    }

    /** The refresh result replaces the list, with the placeholder at index 1 when it is not empty. */
    method OnRefreshResult(fetched: seq<MovieEntity>)
      modifies this
      ensures data == WithPlaceholder(fetched) && published == old(published) + [data]
      ensures currentPage == old(currentPage)
    {
      var modifiedData := fetched;
      if modifiedData != [] {
        modifiedData := modifiedData[..1] + [Placeholder] + modifiedData[1..];
      }
      data := modifiedData;
      published := published + [modifiedData];
    }

    /** A further page is appended to the list as it is. */
    method OnMoreResult(newData: seq<MovieEntity>)
      modifies this
      ensures data == old(data) + newData && published == old(published) + [data]
      ensures currentPage == old(currentPage)
    {
      var currentData := data;
      currentData := currentData + newData;
      data := currentData;
      published := published + [currentData];
    }

    /** A completed save marks the first entity with the movie's id as a favourite; no match publishes nothing. */
    method OnSaved(movieItem: MovieEntity)
      modifies this
      ensures data == MarkFirst(old(data), movieItem.id, true)
      ensures published == if HasId(old(data), movieItem.id) then old(published) + [data] else old(published)
      ensures currentPage == old(currentPage)
    {
      SetFavorite(movieItem.id, true);
    }

    /** A completed removal clears the flag of the first entity with the movie's id; no match publishes nothing. */
    method OnRemoved(movieItem: MovieEntity)
      modifies this
      ensures data == MarkFirst(old(data), movieItem.id, false)
      ensures published == if HasId(old(data), movieItem.id) then old(published) + [data] else old(published)
      ensures currentPage == old(currentPage)
    {
      SetFavorite(movieItem.id, false);
    }

    /** The body both completion handlers share. */
    method SetFavorite(id: int, favorite: bool)
      modifies this
      ensures data == MarkFirst(old(data), id, favorite)
      ensures published == if HasId(old(data), id) then old(published) + [data] else old(published)
      ensures currentPage == old(currentPage)
    {
      var currentData := data;
      FirstIndexOfIdIsFirst(currentData, id);
      var index := FirstIndexOfId(currentData, id);
      if index.Some? {
        currentData := currentData[index.value := currentData[index.value].(isFavorite := favorite)];
        data := currentData;
        published := published + [currentData];
      }
    }
  }
}
