/**
 * The list rules the two feed view models apply to the list they publish:
 * the staggering placeholder, the favourite flag of the first entity with an
 * id, and the removal of the first entity with an id.  The view-model
 * classes change their lists as these functions say; the lemmas state what
 * the rules keep and what they change.
 */
module FeedLists {
  import opened Wrappers
  import opened MovieEntities

  /** `remove(at: i)`. */
  function RemoveAt(movies: seq<MovieEntity>, i: nat): (r: seq<MovieEntity>)
    requires i < |movies|
    ensures |r| == |movies| - 1
    ensures forall j :: 0 <= j < i ==> r[j] == movies[j]
    ensures forall j :: i <= j < |r| ==> r[j] == movies[j + 1]
  {
    movies[..i] + movies[i + 1..]
  }

  /** A fetched list with the placeholder inserted at index 1 (`insert(_, at: 1)`), unless it is empty. */
  function WithPlaceholder(movies: seq<MovieEntity>): (r: seq<MovieEntity>)
    ensures movies == [] ==> r == []
    ensures movies != [] ==> |r| == |movies| + 1 && r[1] == Placeholder
  {
    if movies == [] then [] else movies[..1] + [Placeholder] + movies[1..]
  }

  /** Removing the placeholder again gives back the fetched list; the first entity stays first. */
  lemma PlaceholderRoundTrip(movies: seq<MovieEntity>)
    requires movies != []
    ensures var r := WithPlaceholder(movies);
      r[0] == movies[0] && r[2..] == movies[1..] && RemoveAt(r, 1) == movies
  {
    var r := WithPlaceholder(movies);
    assert r[2..] == movies[1..];
    assert RemoveAt(r, 1) == [movies[0]] + movies[1..];
    assert movies == [movies[0]] + movies[1..];
  }

  /** `currentData[index].isFavorite = favorite` on the first entity with `id`; no match leaves the list alone. */
  function MarkFirst(movies: seq<MovieEntity>, id: int, favorite: bool): (r: seq<MovieEntity>)
    ensures |r| == |movies|
  {
    match FirstIndexOfId(movies, id)
    case None => movies
    case Some(i) => movies[i := movies[i].(isFavorite := favorite)]
  }

  /**
   * Only the first entity with the id changes, and only in its favourite
   * flag; with no such entity nothing changes.
   */
  lemma MarkFirstChangesOnlyFirstMatch(movies: seq<MovieEntity>, id: int, favorite: bool)
    ensures var r := MarkFirst(movies, id, favorite);
      && (!HasId(movies, id) ==> r == movies)
      && (HasId(movies, id) ==>
            exists i :: 0 <= i < |movies|
              && movies[i].id == id
              && (forall j :: 0 <= j < i ==> movies[j].id != id)
              && r[i] == movies[i].(isFavorite := favorite)
              && forall j :: 0 <= j < |movies| && j != i ==> r[j] == movies[j])
  {
    FirstIndexOfIdIsFirst(movies, id);
    if HasId(movies, id) {
      var i := FirstIndexOfId(movies, id).value;
      var r := MarkFirst(movies, id, favorite);
      assert r[i] == movies[i].(isFavorite := favorite);
    }
  }

  /** Marking never changes an id. */
  lemma MarkFirstKeepsIds(movies: seq<MovieEntity>, id: int, favorite: bool)
    ensures forall j :: 0 <= j < |movies| ==> MarkFirst(movies, id, favorite)[j].id == movies[j].id
  {
  }

  /** Lists with the same ids position by position have the same first match. */
  lemma {:induction false} SameIdsSameFirstIndex(a: seq<MovieEntity>, b: seq<MovieEntity>, id: int)
    requires |a| == |b| && forall j :: 0 <= j < |a| ==> a[j].id == b[j].id
    ensures FirstIndexOfId(a, id) == FirstIndexOfId(b, id)
  {
    if a != [] && a[0].id != id {
      SameIdsSameFirstIndex(a[1..], b[1..], id);
    }
  }

  /** Saving and then removing a movie that was not a favourite restores the list. */
  lemma SaveThenRemoveRestores(movies: seq<MovieEntity>, id: int)
    requires forall j :: 0 <= j < |movies| && movies[j].id == id ==> !movies[j].isFavorite
    ensures MarkFirst(MarkFirst(movies, id, true), id, false) == movies
  {
    var saved := MarkFirst(movies, id, true);
    MarkFirstKeepsIds(movies, id, true);
    SameIdsSameFirstIndex(saved, movies, id);
    FirstIndexOfIdIsFirst(movies, id);
  }

  /** Marking twice with the same flag is marking once. */
  lemma MarkFirstIdempotent(movies: seq<MovieEntity>, id: int, favorite: bool)
    ensures MarkFirst(MarkFirst(movies, id, favorite), id, favorite) == MarkFirst(movies, id, favorite)
  {
    MarkFirstKeepsIds(movies, id, favorite);
    SameIdsSameFirstIndex(MarkFirst(movies, id, favorite), movies, id);
  }

  /** `remove(at:)` of the first entity with `id`; no match leaves the list alone. */
  function RemoveFirst(movies: seq<MovieEntity>, id: int): (r: seq<MovieEntity>)
  {
    match FirstIndexOfId(movies, id)
    case None => movies
    case Some(i) => RemoveAt(movies, i)
  }

  /**
   * With a match the list loses exactly its first entity with the id and
   * the others keep their order; without one it is unchanged.
   */
  lemma RemoveFirstDropsFirstMatch(movies: seq<MovieEntity>, id: int)
    ensures var r := RemoveFirst(movies, id);
      && (!HasId(movies, id) ==> r == movies)
      && (HasId(movies, id) ==>
            |r| == |movies| - 1 &&
            exists i :: 0 <= i < |movies|
              && movies[i].id == id
              && (forall j :: 0 <= j < i ==> movies[j].id != id)
              && r == movies[..i] + movies[i + 1..]
              && multiset(r) + multiset{movies[i]} == multiset(movies))
  {
    FirstIndexOfIdIsFirst(movies, id);
    if HasId(movies, id) {
      var i := FirstIndexOfId(movies, id).value;
      assert movies == movies[..i] + [movies[i]] + movies[i + 1..];
      assert multiset(movies) == multiset(movies[..i]) + multiset{movies[i]} + multiset(movies[i + 1..]);
    }
  }
}
