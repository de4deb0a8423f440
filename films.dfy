/**
 * `useFilms`: one film query per URL, and the three values the detail screen reads
 * from the list of query results.
 */
module Films {
  import opened Wrappers
  import opened Sequences
  import opened StarWars

  /** A query as handed to `useQueries`: its cache key and the URL it fetches. */
  datatype FilmQuery = FilmQuery(key: seq<string>, url: string)

  /**
   * What one query reports: its data once loaded, whether it is still loading,
   * and its error (`None` for `null`).
   */
  datatype QueryResult<E> = QueryResult(data: Option<Film>, isLoading: bool, error: Option<E>)

  /** The cache key of the film at `url`. */
  function FilmKey(url: string): seq<string> {
    ["film", url]
  }

  /** `filmUrls.map(url => ({ queryKey: ["film", url], ... }))` */
  function FilmQueries(urls: seq<string>): (qs: seq<FilmQuery>)
    ensures |qs| == |urls|
    ensures forall i :: 0 <= i < |urls| ==> qs[i].url == urls[i]
  {
    if urls == [] then [] else [FilmQuery(FilmKey(urls[0]), urls[0])] + FilmQueries(urls[1..])
  }

  /** Two queries share a cache entry exactly when they fetch the same URL. */
  lemma SameKeyIffSameUrl(urls: seq<string>, i: nat, j: nat)
    requires i < |urls| && j < |urls|
    ensures FilmQueries(urls)[i].key == FilmQueries(urls)[j].key <==> urls[i] == urls[j]
  {
    FilmKeyAt(urls, i);
    FilmKeyAt(urls, j);
    assert FilmKey(urls[i])[1] == urls[i];
    assert FilmKey(urls[j])[1] == urls[j];
  }

  /** The query at position `i` carries the key of the URL at position `i`. */
  lemma {:induction false} FilmKeyAt(urls: seq<string>, i: nat)
    requires i < |urls|
    ensures FilmQueries(urls)[i].key == FilmKey(urls[i])
  {
    if i > 0 {
      FilmKeyAt(urls[1..], i - 1);
    }
  }

  /** `results.filter(r => r.data != null).map(r => r.data)` */
  function LoadedFilms<E>(results: seq<QueryResult<E>>): (films: seq<Film>)
    ensures |films| <= |results|
  {
    if results == [] then []
    else (if results[0].data.Some? then [results[0].data.value] else []) + LoadedFilms(results[1..])
  }

  lemma {:induction false} LoadedFilmsAppend<E>(a: seq<QueryResult<E>>, b: seq<QueryResult<E>>)
    ensures LoadedFilms(a + b) == LoadedFilms(a) + LoadedFilms(b)
  {
    if a == [] {
      assert a + b == b;
    } else {
      var ab := a + b;
      assert ab[0] == a[0];
      assert ab[1..] == a[1..] + b;
      LoadedFilmsAppend(a[1..], b);
      var head := if a[0].data.Some? then [a[0].data.value] else [];
      assert LoadedFilms(ab) == head + LoadedFilms(a[1..] + b);
      assert LoadedFilms(a) == head + LoadedFilms(a[1..]);
    }
  }

  /** A film is listed exactly when some result holds it as its data. */
  lemma {:induction false} LoadedFilmsMembership<E>(results: seq<QueryResult<E>>, f: Film)
    ensures f in LoadedFilms(results) <==> exists i :: 0 <= i < |results| && results[i].data == Some(f)
  {
    if results != [] {
      LoadedFilmsMembership(results[1..], f);
      if exists i :: 0 <= i < |results[1..]| && results[1..][i].data == Some(f) {
        var i :| 0 <= i < |results[1..]| && results[1..][i].data == Some(f);
        assert results[i + 1].data == Some(f);
      }
      if exists i :: 0 <= i < |results| && results[i].data == Some(f) {
        var i :| 0 <= i < |results| && results[i].data == Some(f);
        if i > 0 {
          assert results[1..][i - 1].data == Some(f);
        }
      }
    }
  }

  predicate HasData<E>(r: QueryResult<E>) {
    r.data.Some?
  }

  /**
   * The loaded films are the data of the results that have some, one for one and in
   * the order of the URLs: position `k` holds the data of the `k`-th such result.
   */
  lemma {:induction false} LoadedFilmsAreFilteredData<E>(results: seq<QueryResult<E>>)
    ensures |LoadedFilms(results)| == |Filter(results, HasData)|
    ensures forall k :: 0 <= k < |LoadedFilms(results)| ==>
      LoadedFilms(results)[k] == Filter(results, HasData)[k].data.value
  {
    if results != [] {
      LoadedFilmsAreFilteredData(results[1..]);
    }
  }

  /** Once every query has data, every film is shown, in the order of the URLs. */
  lemma {:induction false} AllLoadedShowsAll<E>(results: seq<QueryResult<E>>)
    requires forall i :: 0 <= i < |results| ==> results[i].data.Some?
    ensures |LoadedFilms(results)| == |results|
    ensures forall i :: 0 <= i < |results| ==> LoadedFilms(results)[i] == results[i].data.value
  {
    if results != [] {
      AllLoadedShowsAll(results[1..]);
    }
  }

  /** `results.some(r => r.isLoading)` */
  function AnyLoading<E>(results: seq<QueryResult<E>>): (b: bool)
    ensures b <==> exists i :: 0 <= i < |results| && results[i].isLoading
  {
    if results == [] then false
    else if results[0].isLoading then true
    else
      var b := AnyLoading(results[1..]);
      assert forall i :: 1 <= i < |results| ==> results[i] == results[1..][i - 1];
      b
  }

  /** `results.find(r => r.error)?.error`: an error object is always truthy. */
  function FirstError<E>(results: seq<QueryResult<E>>): (e: Option<E>)
    ensures e.None? <==> forall i :: 0 <= i < |results| ==> results[i].error.None?
    ensures e.Some? ==> exists i ::
      && 0 <= i < |results|
      && results[i].error == e
      && forall j :: 0 <= j < i ==> results[j].error.None?
  {
    match FirstIndex(results, (r: QueryResult<E>) => r.error.Some?)
    case None =>
      assert forall i :: 0 <= i < |results| ==> results[i] in results;
      None
    case Some(i) => results[i].error
  }
}
