/** Feature extraction of the movie recommender backend: the helpers that turn
    the parsed `genres`, `keywords`, `cast` and `crew` columns into name lists,
    the space stripping applied to every name, and the `tags` column that
    concatenates them after the tokenized overview. */
module Features {
  import opened Wrappers

  /** One record of a parsed JSON-ish column. Genres, keywords and cast only
      use `name`; crew records also carry the person's `job`. */
  datatype Entry = Entry(name: string, job: string)

  const Director: string := "Director"
  const CastLimit: nat := 3

  function Min(a: int, b: int): int { if a <= b then a else b }

  /** The `name` of every entry, in input order. */
  function Names(es: seq<Entry>): (r: seq<string>)
    ensures |r| == |es|
    ensures forall i :: 0 <= i < |es| ==> r[i] == es[i].name
  {
    if es == [] then [] else [es[0].name] + Names(es[1..])
  }

  /** `convert`: collects the name of every entry. */
  method Convert(es: seq<Entry>) returns (names: seq<string>)
    ensures names == Names(es)
  {
    names := [];
    for i := 0 to |es|
      invariant |names| == i
      invariant forall k :: 0 <= k < i ==> names[k] == es[k].name
    {
      names := names + [es[i].name];
    }
  }

  /** `convert3`: collects the names of the first three entries, counting
      appended names and leaving the loop once three were taken. */
  method Convert3(es: seq<Entry>) returns (names: seq<string>)
    ensures names == Names(es[..Min(CastLimit, |es|)])
    ensures names <= Names(es)
  {
    names := [];
    var counter := 0;
    var i := 0;
    while i < |es|
      invariant 0 <= i <= |es| && counter == i <= CastLimit
      invariant |names| == i
      invariant forall k :: 0 <= k < i ==> names[k] == es[k].name
    {
      if counter != CastLimit {
        names := names + [es[i].name];
        counter := counter + 1;
      } else {
        break;
      }
      i := i + 1;
    }
    assert i == Min(CastLimit, |es|);
  }

  /** Position of the first crew entry whose job is exactly "Director". */
  function DirectorIndex(es: seq<Entry>): (r: Option<nat>)
    ensures r.Some? ==> r.value < |es| && es[r.value].job == Director
    ensures r.Some? ==> forall j :: 0 <= j < r.value ==> es[j].job != Director
    ensures r.None? ==> forall j :: 0 <= j < |es| ==> es[j].job != Director
  {
    if es == [] then None
    else if es[0].job == Director then Some(0)
    else match DirectorIndex(es[1..])
      case None => None
      case Some(k) => Some(k + 1)
  }

  /** The director list of one movie: the first director's name, or nothing. */
  function DirectorNames(es: seq<Entry>): (r: seq<string>)
    ensures |r| <= 1
    ensures r == [] <==> forall j :: 0 <= j < |es| ==> es[j].job != Director
    ensures r != [] ==> exists j :: 0 <= j < |es| && es[j].job == Director && es[j].name == r[0]
                                 && forall i :: 0 <= i < j ==> es[i].job != Director
  {
    match DirectorIndex(es)
    case None => []
    case Some(k) => [es[k].name]
  }

  /** `fetch_director`: scans the crew and stops at the first director. */
  method FetchDirector(es: seq<Entry>) returns (names: seq<string>)
    ensures names == DirectorNames(es)
  {
    names := [];
    var i := 0;
    while i < |es|
      invariant 0 <= i <= |es|
      invariant names == []
      invariant forall j :: 0 <= j < i ==> es[j].job != Director
    {
      if es[i].job == Director {
        names := [es[i].name];
        break;
      }
      i := i + 1;
    }
  }

  /** A name with every ' ' character removed (`str.replace(" ", "")`). */
  function RemoveSpaces(s: string): (r: string)
    ensures ' ' !in r
    ensures multiset(r) == multiset(s)[' ' := 0]
  {
    if s == [] then []
    else
      assert s == [s[0]] + s[1..];
      (if s[0] == ' ' then [] else [s[0]]) + RemoveSpaces(s[1..])
  }

  /** Removing spaces works piece by piece, so it keeps the order of the
      remaining characters. */
  lemma {:induction false} RemoveSpacesConcat(a: string, b: string)
    ensures RemoveSpaces(a + b) == RemoveSpaces(a) + RemoveSpaces(b)
  {
    if a == [] {
      assert a + b == b;
    } else {
      assert (a + b)[0] == a[0] && (a + b)[1..] == a[1..] + b;
      RemoveSpacesConcat(a[1..], b);
    }
  }

  /** A name without spaces is left as it is; hence stripping is idempotent. */
  lemma {:induction false} RemoveSpacesFixed(s: string)
    requires ' ' !in s
    ensures RemoveSpaces(s) == s
  {
    if s != [] {
      RemoveSpacesFixed(s[1..]);
    }
  }

  lemma RemoveSpacesIdempotent(s: string)
    ensures RemoveSpaces(RemoveSpaces(s)) == RemoveSpaces(s)
  {
    RemoveSpacesFixed(RemoveSpaces(s));
  }

  /** The comprehension `[i.replace(" ", "") for i in x]` over one list. */
  function StripAll(xs: seq<string>): (r: seq<string>)
    ensures |r| == |xs|
    ensures forall i :: 0 <= i < |xs| ==> r[i] == RemoveSpaces(xs[i])
    ensures forall i :: 0 <= i < |r| ==> ' ' !in r[i]
  {
    seq(|xs|, i requires 0 <= i < |xs| => RemoveSpaces(xs[i]))
  }

  /** One row of the merged movie table, with the JSON-ish columns already
      parsed into records and the overview already split into words. */
  datatype Movie = Movie(
    movieId: int,
    title: string,
    overview: seq<string>,
    genres: seq<Entry>,
    keywords: seq<Entry>,
    cast: seq<Entry>,
    crew: seq<Entry>)

  lemma SpaceFreeConcat(xs: seq<string>, ys: seq<string>)
    requires forall i :: 0 <= i < |xs| ==> ' ' !in xs[i]
    requires forall i :: 0 <= i < |ys| ==> ' ' !in ys[i]
    ensures forall i :: 0 <= i < |xs + ys| ==> ' ' !in (xs + ys)[i]
  {
    forall i | 0 <= i < |xs + ys|
      ensures ' ' !in (xs + ys)[i]
    {
      if i >= |xs| { assert (xs + ys)[i] == ys[i - |xs|]; }
    }
  }

  /** The part of `tags` after the overview: one space-free token per genre,
      per keyword, per leading cast member (at most three) and for the
      director when there is one. */
  function TagTokens(m: Movie): (r: seq<string>)
    ensures |r| == |m.genres| + |m.keywords| + Min(CastLimit, |m.cast|)
      + (if DirectorIndex(m.crew).Some? then 1 else 0)
    ensures forall j :: 0 <= j < |r| ==> ' ' !in r[j]
  {
    var g := StripAll(Names(m.genres));
    var k := StripAll(Names(m.keywords));
    var c := StripAll(Names(m.cast[..Min(CastLimit, |m.cast|)]));
    var d := StripAll(DirectorNames(m.crew));
    SpaceFreeConcat(g, k);
    SpaceFreeConcat(g + k, c);
    SpaceFreeConcat(g + k + c, d);
    g + k + c + d
  }

  /** The tokens come in column order: each genre, then each keyword, then
      each leading cast member, then the director, every name stripped. */
  lemma TagTokensOrder(m: Movie)
    ensures forall j :: 0 <= j < |m.genres| ==>
      TagTokens(m)[j] == RemoveSpaces(m.genres[j].name)
    ensures forall j :: 0 <= j < |m.keywords| ==>
      TagTokens(m)[|m.genres| + j] == RemoveSpaces(m.keywords[j].name)
    ensures forall j :: 0 <= j < Min(CastLimit, |m.cast|) ==>
      TagTokens(m)[|m.genres| + |m.keywords| + j] == RemoveSpaces(m.cast[j].name)
    ensures DirectorIndex(m.crew).Some? ==>
      TagTokens(m)[|TagTokens(m)| - 1] == RemoveSpaces(m.crew[DirectorIndex(m.crew).value].name)
  {
    TokensOfGenres(m);
    TokensOfKeywords(m);
    TokensOfCast(m);
    TokenOfDirector(m);
  }

  lemma TokensOfGenres(m: Movie)
    ensures forall j :: 0 <= j < |m.genres| ==>
      TagTokens(m)[j] == RemoveSpaces(m.genres[j].name)
  {
    var g := StripAll(Names(m.genres));
    var k := StripAll(Names(m.keywords));
    var c := StripAll(Names(m.cast[..Min(CastLimit, |m.cast|)]));
    var d := StripAll(DirectorNames(m.crew));
    SegmentsAt(g, k, c, d);
    StrippedSegment(m.genres, TagTokens(m), 0);
  }

  lemma TokensOfKeywords(m: Movie)
    ensures forall j :: 0 <= j < |m.keywords| ==>
      TagTokens(m)[|m.genres| + j] == RemoveSpaces(m.keywords[j].name)
  {
    var g := StripAll(Names(m.genres));
    var k := StripAll(Names(m.keywords));
    var c := StripAll(Names(m.cast[..Min(CastLimit, |m.cast|)]));
    var d := StripAll(DirectorNames(m.crew));
    SegmentsAt(g, k, c, d);
    StrippedSegment(m.keywords, TagTokens(m), |g|);
  }

  lemma TokensOfCast(m: Movie)
    ensures forall j :: 0 <= j < Min(CastLimit, |m.cast|) ==>
      TagTokens(m)[|m.genres| + |m.keywords| + j] == RemoveSpaces(m.cast[j].name)
  {
    var g := StripAll(Names(m.genres));
    var k := StripAll(Names(m.keywords));
    var c := StripAll(Names(m.cast[..Min(CastLimit, |m.cast|)]));
    var d := StripAll(DirectorNames(m.crew));
    SegmentsAt(g, k, c, d);
    StrippedPrefix(m.cast, Min(CastLimit, |m.cast|), TagTokens(m), |g| + |k|);
  }

  lemma TokenOfDirector(m: Movie)
    ensures DirectorIndex(m.crew).Some? ==>
      TagTokens(m)[|TagTokens(m)| - 1] == RemoveSpaces(m.crew[DirectorIndex(m.crew).value].name)
  {
    var g := StripAll(Names(m.genres));
    var k := StripAll(Names(m.keywords));
    var c := StripAll(Names(m.cast[..Min(CastLimit, |m.cast|)]));
    var d := StripAll(DirectorNames(m.crew));
    var r := TagTokens(m);
    if DirectorIndex(m.crew).Some? {
      SegmentsAt(g, k, c, d);
      assert d == [RemoveSpaces(m.crew[DirectorIndex(m.crew).value].name)];
      assert r[|g| + |k| + |c| + 0] == d[0];
    }
  }

  /** A stretch of `whole` that holds the stripped names of `es`. */
  lemma StrippedSegment(es: seq<Entry>, whole: seq<string>, offset: nat)
    requires offset + |es| <= |whole|
    requires forall j :: 0 <= j < |es| ==> whole[offset + j] == StripAll(Names(es))[j]
    ensures forall j :: 0 <= j < |es| ==> whole[offset + j] == RemoveSpaces(es[j].name)
  {
    forall j | 0 <= j < |es|
      ensures whole[offset + j] == RemoveSpaces(es[j].name)
    {
      StrippedName(es, j);
    }
  }

  /** A stretch of `whole` that holds the stripped names of the first `n`
      entries of `es`. */
  lemma StrippedPrefix(es: seq<Entry>, n: nat, whole: seq<string>, offset: nat)
    requires n <= |es| && offset + n <= |whole|
    requires forall j :: 0 <= j < n ==> whole[offset + j] == StripAll(Names(es[..n]))[j]
    ensures forall j :: 0 <= j < n ==> whole[offset + j] == RemoveSpaces(es[j].name)
  {
    forall j | 0 <= j < n
      ensures whole[offset + j] == RemoveSpaces(es[j].name)
    {
      StrippedName(es[..n], j);
      assert es[..n][j] == es[j];
    }
  }

  lemma StrippedName(es: seq<Entry>, j: nat)
    requires j < |es|
    ensures StripAll(Names(es))[j] == RemoveSpaces(es[j].name)
  {
  }

  /** Where each of four concatenated pieces sits in the whole. */
  lemma SegmentsAt(g: seq<string>, k: seq<string>, c: seq<string>, d: seq<string>)
    ensures forall j :: 0 <= j < |g| ==> (g + k + c + d)[j] == g[j]
    ensures forall j :: 0 <= j < |k| ==> (g + k + c + d)[|g| + j] == k[j]
    ensures forall j :: 0 <= j < |c| ==> (g + k + c + d)[|g| + |k| + j] == c[j]
    ensures forall j :: 0 <= j < |d| ==> (g + k + c + d)[|g| + |k| + |c| + j] == d[j]
  {
  }

  /** The `tags` column of one movie: the overview words first, unchanged,
      then the tokens, none of which contains a space. */
  function Tags(m: Movie): (r: seq<string>)
    ensures |r| == |m.overview| + |m.genres| + |m.keywords|
      + Min(CastLimit, |m.cast|) + (if DirectorIndex(m.crew).Some? then 1 else 0)
    ensures r[..|m.overview|] == m.overview
    ensures forall i :: |m.overview| <= i < |r| ==> ' ' !in r[i]
  {
    PrefixThenSpaceFree(m.overview, TagTokens(m));
    m.overview + TagTokens(m)
  }

  lemma PrefixThenSpaceFree(head: seq<string>, rest: seq<string>)
    requires forall j :: 0 <= j < |rest| ==> ' ' !in rest[j]
    ensures (head + rest)[..|head|] == head
    ensures forall i :: |head| <= i < |head + rest| ==> ' ' !in (head + rest)[i]
  {
    forall i | |head| <= i < |head + rest|
      ensures ' ' !in (head + rest)[i]
    {
      assert (head + rest)[i] == rest[i - |head|];
    }
  }

  /** Builds the `tags` of one movie the way the backend does it: the three
      extraction helpers, then space stripping of each list, then the
      concatenation in column order. */
  method BuildTags(m: Movie) returns (tags: seq<string>)
    ensures tags == Tags(m)
  {
    var genres := Convert(m.genres);
    var keywords := Convert(m.keywords);
    var cast := Convert3(m.cast);
    var crew := FetchDirector(m.crew);
    tags := m.overview + (StripAll(genres) + StripAll(keywords) + StripAll(cast) + StripAll(crew));
  }
}
