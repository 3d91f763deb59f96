/** The backend's HTTP handlers, with the OMDb lookup taken as a parameter:
    `/recommend` attaches a poster to each recommended title and `/posters`
    does the same for the whole catalog. */
module Api {
  import opened Wrappers
  import opened Catalog
  import opened Ranking

  const Placeholder: string := "https://via.placeholder.com/150"
  const NotAvailable: string := "N/A"

  /** One entry of a JSON answer: `{'title': ..., 'poster_url': ...}`. */
  datatype Recommendation = Recommendation(title: string, posterUrl: string)

  /** An OMDb lookup by title: the `Poster` field of its answer, if any. */
  type Omdb = string -> Option<string>

  /** The poster fallback rule: OMDb's poster when the answer has one that is
      not "N/A", the placeholder image otherwise. */
  function PosterUrl(poster: Option<string>): (url: string)
    ensures url != NotAvailable
    ensures url == Placeholder || poster == Some(url)
    ensures poster.Some? && poster.value != NotAvailable ==> url == poster.value
    ensures poster.None? || poster == Some(NotAvailable) ==> url == Placeholder
  {
    if poster.Some? && poster.value != NotAvailable then poster.value else Placeholder
  }

  /** The loop shared by both handlers: one entry per title, same title, same
      order, each with the poster the rule picks for its lookup. */
  method AttachPosters(titles: seq<string>, omdb: Omdb) returns (entries: seq<Recommendation>)
    ensures |entries| == |titles|
    ensures forall i :: 0 <= i < |titles| ==>
      entries[i] == Recommendation(titles[i], PosterUrl(omdb(titles[i])))
  {
    entries := [];
    for i := 0 to |titles|
      invariant |entries| == i
      invariant forall k :: 0 <= k < i ==>
        entries[k] == Recommendation(titles[k], PosterUrl(omdb(titles[k])))
    {
      var poster := omdb(titles[i]);
      if poster.Some? && poster.value != NotAvailable {
        entries := entries + [Recommendation(titles[i], poster.value)];
      } else {
        entries := entries + [Recommendation(titles[i], Placeholder)];
      }
    }
  }

  /** `recommend_movies`: the request's `movie` field (absent when the body
      has none) goes to `get_recommendations`, and each title gets a poster. */
  method RecommendMovies(df: seq<Row>, sim: seq<seq<int>>, movie: Option<string>, omdb: Omdb)
    returns (entries: seq<Recommendation>)
    requires Square(sim, |df|)
    ensures var titles := GetRecommendations(df, sim, movie);
      |entries| == |titles|
      && forall i :: 0 <= i < |titles| ==>
        entries[i] == Recommendation(titles[i], PosterUrl(omdb(titles[i])))
    ensures FirstIndex(df, movie).None? ==> entries == []
    ensures forall i :: 0 <= i < |entries| ==>
      entries[i].title in GetMovies(df) && entries[i].posterUrl != NotAvailable
  {
    var titles := GetRecommendations(df, sim, movie);
    entries := AttachPosters(titles, omdb);
  }

  /** `get_posters`: one entry per catalog row, in table order. */
  method GetPosters(df: seq<Row>, omdb: Omdb) returns (entries: seq<Recommendation>)
    ensures |entries| == |df|
    ensures forall i :: 0 <= i < |df| ==>
      entries[i] == Recommendation(df[i].title, PosterUrl(omdb(df[i].title)))
  {
    var titles := GetMovies(df);
    entries := AttachPosters(titles, omdb);
  }
}
