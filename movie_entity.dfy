/**
 * The movie entity the feeds show, and the id lookup every list handler
 * starts from (`firstIndex(where: { $0.id == id })`).
 */
module MovieEntities {
  import opened Wrappers

  /**
   * `MovieEntity`.  The poster URL is kept as the text it was built from
   * (`None` where the source has `nil`).
   */
  datatype MovieEntity = MovieEntity(id: int, title: string, posterImageUrl: Option<string>, isFavorite: bool)

  /** The filler entity the feeds insert to stagger the grid: id -1, no title, no poster, not a favourite. */
  const Placeholder := MovieEntity(-1, "", None, false)

  /** `firstIndex(where: { $0.id == id })`. */
  function FirstIndexOfId(movies: seq<MovieEntity>, id: int): (r: Option<nat>)
    ensures r.Some? ==> r.value < |movies|
  {
    if movies == [] then None
    else if movies[0].id == id then Some(0)
    else match FirstIndexOfId(movies[1..], id)
      case None => None
      case Some(k) => Some(k + 1)
  }

  /** `HasId(movies, id)`: some entity in `movies` carries `id`. */
  predicate HasId(movies: seq<MovieEntity>, id: int) {
    exists i :: 0 <= i < |movies| && movies[i].id == id
  }

  /** The lookup finds an entity exactly when one has the id, and then the first one. */
  lemma {:induction false} FirstIndexOfIdIsFirst(movies: seq<MovieEntity>, id: int)
    ensures var r := FirstIndexOfId(movies, id);
      && (r.Some? <==> HasId(movies, id))
      && (r.Some? ==> movies[r.value].id == id && forall j :: 0 <= j < r.value ==> movies[j].id != id)
  {
    if movies != [] && movies[0].id != id {
      var rest := movies[1..];
      FirstIndexOfIdIsFirst(rest, id);
      if HasId(movies, id) {
        var i :| 0 <= i < |movies| && movies[i].id == id;
        assert rest[i - 1].id == id;
      }
      if HasId(rest, id) {
        var i :| 0 <= i < |rest| && rest[i].id == id;
        assert movies[i + 1].id == id;
      }
      var r := FirstIndexOfId(movies, id);
      if r.Some? {
        forall j | 1 <= j < r.value
          ensures movies[j].id != id
        {
          assert movies[j] == rest[j - 1];
        }
      }
    }
  }
}
