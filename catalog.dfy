/** The backend's `new_df` table: one row per movie that survived the merge
    and the removal of incomplete rows, in table order. */
module Catalog {
  import opened Wrappers

  /** A row of `new_df`. `indexLabel` is the pandas index label the row kept from
      the merged table; after incomplete rows are dropped the labels are no
      longer the row positions. */
  datatype Row = Row(indexLabel: nat, movieId: int, title: string, tags: seq<string>)

  /** `get_movies`: the `title` column as a list, in table order. */
  function GetMovies(df: seq<Row>): (titles: seq<string>)
    ensures |titles| == |df|
    ensures forall i :: 0 <= i < |df| ==> titles[i] == df[i].title
  {
    if df == [] then [] else [df[0].title] + GetMovies(df[1..])
  }

  /** Position of the first row whose title equals the requested movie
      (`new_df[new_df['title'] == movie].index[0]`). A request without a
      `movie` field matches no row. */
  function FirstIndex(df: seq<Row>, movie: Option<string>): (r: Option<nat>)
    ensures r.Some? ==> r.value < |df| && movie == Some(df[r.value].title)
    ensures r.Some? ==> forall j :: 0 <= j < r.value ==> movie != Some(df[j].title)
    ensures r.None? ==> forall j :: 0 <= j < |df| ==> movie != Some(df[j].title)
  {
    if df == [] then None
    else if movie == Some(df[0].title) then Some(0)
    else match FirstIndex(df[1..], movie)
      case None => None
      case Some(k) => Some(k + 1)
  }
}
