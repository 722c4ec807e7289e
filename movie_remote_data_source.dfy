/**
 * `MovieRemoteDataSource`: how remote results become entities marked by the
 * stored favourites, how a favourite is saved and removed, how the stored
 * favourites become entities, and the query of the discover request.
 *
 * The Core Data store is the `records` field of a `FavoriteStore`, one
 * `StoredMovie` per `MovieCoreDataEntity` in fetch order.  `URL(string:)`
 * is the parameter `url`, and the app's secret constants (`apiKey`,
 * `imageBaseUrlW500`) are parameters too.
 */
module MovieRemoteDataSource {
  import opened Wrappers
  import opened Decimal
  import opened MovieEntities

  /** A stored favourite: the optional attributes of a `MovieCoreDataEntity`. */
  datatype StoredMovie = StoredMovie(movieId: Option<string>, title: Option<string>, posterImageUrl: Option<string>)

  /** `MovieItemDataEntity`, one result of the discover request. */
  datatype MovieItem = MovieItem(id: int, title: string, posterPath: string)

  /** `$0.movieId == String(id)`. */
  predicate Matches(record: StoredMovie, id: int) {
    record.movieId == Some(IntToString(id))
  }

  predicate IsStored(store: seq<StoredMovie>, id: int) {
    exists j :: 0 <= j < |store| && Matches(store[j], id)
  }

  /** `first(where: { $0.movieId == String(id) })`, as an index. */
  function FirstStored(store: seq<StoredMovie>, id: int): (r: Option<nat>)
    ensures r.Some? ==> r.value < |store|
  {
    if store == [] then None
    else if Matches(store[0], id) then Some(0)
    else match FirstStored(store[1..], id)
      case None => None
      case Some(k) => Some(k + 1)
  }

  /** The lookup finds a record exactly when one matches, and then the first one. */
  lemma {:induction false} FirstStoredIsFirst(store: seq<StoredMovie>, id: int)
    ensures var r := FirstStored(store, id);
      && (r.Some? <==> IsStored(store, id))
      && (r.Some? ==> Matches(store[r.value], id) && forall j :: 0 <= j < r.value ==> !Matches(store[j], id))
  {
    if store != [] && !Matches(store[0], id) {
      var rest := store[1..];
      FirstStoredIsFirst(rest, id);
      if IsStored(store, id) {
        var i :| 0 <= i < |store| && Matches(store[i], id);
        assert Matches(rest[i - 1], id);
      }
      if IsStored(rest, id) {
        var i :| 0 <= i < |rest| && Matches(rest[i], id);
        assert Matches(store[i + 1], id);
      }
      var r := FirstStored(store, id);
      if r.Some? {
        forall j | 1 <= j < r.value
          ensures !Matches(store[j], id)
        {
          assert store[j] == rest[j - 1];
        }
      }
    }
  }

  // ------------------------------------------------------------- fetchData

  /** The entity `fetchData` makes of one remote result. */
  function EntityOfItem(item: MovieItem, favorites: seq<StoredMovie>, imageBase: string, url: string -> Option<string>): MovieEntity {
    MovieEntity(item.id, item.title, url(imageBase + item.posterPath), FirstStored(favorites, item.id).Some?)
  }

  /** `remoteMovies.results.map { ... }`. */
  function MarkFavorites(items: seq<MovieItem>, favorites: seq<StoredMovie>, imageBase: string, url: string -> Option<string>)
    : (r: seq<MovieEntity>)
    ensures |r| == |items|
  {
    seq(|items|, i requires 0 <= i < |items| => EntityOfItem(items[i], favorites, imageBase, url))
  }

  /**
   * One entity per result, in order: id and title copied, the poster URL
   * built from the image base and the poster path, and the favourite flag
   * set exactly when a stored favourite has the result's id.
   */
  lemma MarkFavoritesPerItem(items: seq<MovieItem>, favorites: seq<StoredMovie>, imageBase: string,
                             url: string -> Option<string>, i: nat)
    requires i < |items|
    ensures var e := MarkFavorites(items, favorites, imageBase, url)[i];
      && e.id == items[i].id
      && e.title == items[i].title
      && e.posterImageUrl == url(imageBase + items[i].posterPath)
      && (e.isFavorite <==> IsStored(favorites, items[i].id))
  {
    FirstStoredIsFirst(favorites, items[i].id);
  }

  // ------------------------------------------------------- stored favourites

  /** The record a save creates for an entity that is not stored yet. */
  function NewRecord(movie: MovieEntity): StoredMovie {
    StoredMovie(Some(IntToString(movie.id)), Some(movie.title), movie.posterImageUrl)
  }

  /** The store after `saveMovieItemToCoreData`: the first match is overwritten, else a record is appended. */
  function Upserted(store: seq<StoredMovie>, movie: MovieEntity): (r: seq<StoredMovie>)
  {
    match FirstStored(store, movie.id)
    case Some(i) => store[i := store[i].(title := Some(movie.title), posterImageUrl := movie.posterImageUrl)]
    case None => store + [NewRecord(movie)]
  }

  /**
   * A save of a stored movie rewrites the title and poster URL of its first
   * record and nothing else; a save of a new movie appends exactly one
   * record.  Either way the movie is stored afterwards.
   */
  lemma UpsertedSpec(store: seq<StoredMovie>, movie: MovieEntity)
    ensures var r := Upserted(store, movie);
      && IsStored(r, movie.id)
      && (IsStored(store, movie.id) ==>
            |r| == |store| &&
            exists i :: 0 <= i < |store|
              && Matches(store[i], movie.id)
              && (forall j :: 0 <= j < i ==> !Matches(store[j], movie.id))
              && r[i] == StoredMovie(store[i].movieId, Some(movie.title), movie.posterImageUrl)
              && forall j :: 0 <= j < |store| && j != i ==> r[j] == store[j])
      && (!IsStored(store, movie.id) ==> r == store + [NewRecord(movie)])
  {
    FirstStoredIsFirst(store, movie.id);
    var r := Upserted(store, movie);
    match FirstStored(store, movie.id)
    case Some(i) =>
      assert Matches(r[i], movie.id);
    case None =>
      assert Matches(r[|store|], movie.id);
  }

  /** The store after `removeMovieItemToCoreData`: every record with the id is gone, the others stay in order. */
  function WithoutMovie(store: seq<StoredMovie>, id: int): (r: seq<StoredMovie>)
    ensures |r| <= |store|
    ensures !IsStored(r, id)
    ensures forall x :: x in r <==> x in store && !Matches(x, id)
    ensures forall x :: multiset(r)[x] == if Matches(x, id) then 0 else multiset(store)[x]
  {
    if store == [] then []
    else
      var last := store[|store| - 1];
      assert store == store[..|store| - 1] + [last];
      WithoutMovie(store[..|store| - 1], id) + if Matches(last, id) then [] else [last]
  }

  /** The entity `fetchFavoriteMovies` makes of one record: id parsed or -1, title or "-", a favourite. */
  function EntityOfRecord(record: StoredMovie): MovieEntity {
    MovieEntity(ParseInt(record.movieId.GetOr("")).GetOr(-1), record.title.GetOr("-"), record.posterImageUrl, true)
  }

  /** `favoriteMovies.map { ... }`. */
  function FavoritesAsEntities(store: seq<StoredMovie>): (r: seq<MovieEntity>)
    ensures |r| == |store|
    ensures forall i :: 0 <= i < |store| ==> r[i].isFavorite && r[i].posterImageUrl == store[i].posterImageUrl
    ensures forall i :: 0 <= i < |store| ==>
      (store[i].movieId.Some? && ParseInt(store[i].movieId.value).Some? ==> r[i].id == ParseInt(store[i].movieId.value).value)
    ensures forall i :: 0 <= i < |store| ==> (store[i].title.Some? ==> r[i].title == store[i].title.value)
  {
    seq(|store|, i requires 0 <= i < |store| => EntityOfRecord(store[i]))
  }

  /** A record without a readable id becomes id -1, one without a title gets "-". */
  lemma FavoriteDefaults(record: StoredMovie)
    ensures record.movieId.None? ==> EntityOfRecord(record).id == -1
    ensures record.movieId.Some? && ParseInt(record.movieId.value).None? ==> EntityOfRecord(record).id == -1
    ensures record.title.None? ==> EntityOfRecord(record).title == "-"
  {
    assert ParseInt("") == None;
  }

  /**
   * A saved movie (any 64-bit id) is listed by `fetchFavoriteMovies` with
   * its id, title and poster URL.
   */
  lemma SavedMovieIsListed(store: seq<StoredMovie>, movie: MovieEntity)
    requires InIntRange(movie.id)
    ensures exists i :: (0 <= i < |Upserted(store, movie)| &&
      FavoritesAsEntities(Upserted(store, movie))[i] == MovieEntity(movie.id, movie.title, movie.posterImageUrl, true))
  {
    FirstStoredIsFirst(store, movie.id);
    ParseIntRoundTrip(movie.id);
    var r := Upserted(store, movie);
    var i := match FirstStored(store, movie.id) case Some(k) => k case None => |store|;
    assert r[i].movieId == Some(IntToString(movie.id));
    assert FavoritesAsEntities(r)[i] == EntityOfRecord(r[i]);
  }

  /** After a save the next `fetchData` marks every result with the movie's id as a favourite. */
  lemma SavedMovieIsMarked(items: seq<MovieItem>, store: seq<StoredMovie>, movie: MovieEntity, imageBase: string,
                           url: string -> Option<string>, i: nat)
    requires i < |items| && items[i].id == movie.id
    ensures MarkFavorites(items, Upserted(store, movie), imageBase, url)[i].isFavorite
  {
    UpsertedSpec(store, movie);
    MarkFavoritesPerItem(items, Upserted(store, movie), imageBase, url, i);
  }

  /** After a removal the next `fetchData` marks no result with the movie's id as a favourite. */
  lemma RemovedMovieIsUnmarked(items: seq<MovieItem>, store: seq<StoredMovie>, id: int, imageBase: string,
                               url: string -> Option<string>, i: nat)
    requires i < |items| && items[i].id == id
    ensures !MarkFavorites(items, WithoutMovie(store, id), imageBase, url)[i].isFavorite
  {
    MarkFavoritesPerItem(items, WithoutMovie(store, id), imageBase, url, i);
  }

  // ---------------------------------------------------------------- request

  /** A `URLQueryItem`. */
  datatype QueryItem = QueryItem(name: string, value: string)

  /** The query items of `constructUrl(page:)`, in order. */
  function DiscoverQuery(apiKey: string, page: int): (q: seq<QueryItem>)
    ensures |q| == 6
  {
    [QueryItem("api_key", apiKey),
     QueryItem("include_adult", "false"),
     QueryItem("include_video", "false"),
     QueryItem("language", "en-US"),
     QueryItem("page", IntToString(page)),
     QueryItem("sort_by", "popularity.desc")]
  }

  /**
   * Every parameter name occurs once, and the server reads the requested
   * page back from the `page` parameter.
   */
  lemma DiscoverQueryNamesPage(apiKey: string, page: int)
    requires InIntRange(page)
    ensures var q := DiscoverQuery(apiKey, page);
      && (forall i, j :: 0 <= i < j < |q| ==> q[i].name != q[j].name)
      && (exists i :: 0 <= i < |q| && q[i].name == "page" && ParseInt(q[i].value) == Some(page))
  {
    ParseIntRoundTrip(page);
    assert DiscoverQuery(apiKey, page)[4].name == "page";
  }

  /** Distinct pages give distinct queries. */
  lemma DiscoverQueryInjective(apiKey: string, a: int, b: int)
    ensures DiscoverQuery(apiKey, a) == DiscoverQuery(apiKey, b) <==> a == b
  {
    IntToStringInjective(a, b);
    if DiscoverQuery(apiKey, a) == DiscoverQuery(apiKey, b) {
      assert DiscoverQuery(apiKey, a)[4] == DiscoverQuery(apiKey, b)[4];
    }
  }

  // ------------------------------------------------------------------ store

  /** The favourites store: its records, in fetch order. */
  class FavoriteStore {
    var records: seq<StoredMovie>

    /** The store as `fetchCoreDataFavoriteMovies` finds it persisted. */
    constructor(persisted: seq<StoredMovie>)
      ensures records == persisted
    {
      records := persisted;
    }

    /** `saveMovieItemToCoreData`: update the first stored record of the movie, else insert a new one. */
    method Save(movieItem: MovieEntity)
      modifies this
      ensures records == Upserted(old(records), movieItem)
    {
      var favoriteMovies := records;
      var existing := FirstStored(favoriteMovies, movieItem.id);
      if existing.Some? {
        var i := existing.value;
        records := records[i := records[i].(title := Some(movieItem.title), posterImageUrl := movieItem.posterImageUrl)];
      } else {
        records := records + [StoredMovie(Some(IntToString(movieItem.id)), Some(movieItem.title), movieItem.posterImageUrl)];
      }
    }

    /** `removeMovieItemToCoreData`: delete every record whose `movieId` is the movie's id. */
    method Remove(movieItem: MovieEntity)
      modifies this
      ensures records == WithoutMovie(old(records), movieItem.id)
    {
      var key := IntToString(movieItem.id);
      var kept: seq<StoredMovie> := [];
      for i := 0 to |records|
        invariant kept == WithoutMovie(records[..i], movieItem.id)
      {
        assert records[..i + 1][..i] == records[..i];
        if records[i].movieId != Some(key) {
          kept := kept + [records[i]];
        }
      }
      assert records[..|records|] == records;
      records := kept;
    }

    /** `fetchFavoriteMovies`. */
    function FetchFavoriteMovies(): (movies: seq<MovieEntity>)
      reads this
      ensures |movies| == |records|
      ensures forall i :: 0 <= i < |records| ==>
        && movies[i].isFavorite
        && movies[i].posterImageUrl == records[i].posterImageUrl
        && (records[i].movieId.Some? && ParseInt(records[i].movieId.value).Some? ==>
              movies[i].id == ParseInt(records[i].movieId.value).value)
        && (records[i].title.Some? ==> movies[i].title == records[i].title.value)
    {
      FavoritesAsEntities(records)
    }
  }
}
