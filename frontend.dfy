/** The single-page client: the `App` component's five state slots, the
    catalog load on mount, the recommendation request with its loading flag
    and error capture, and what the page shows from that state. Each `fetch`
    is replaced by the way it settles, given as a parameter. */
module Frontend {
  import opened Wrappers
  import opened Api

  /** A `react-select` option; the client builds both fields from the title. */
  datatype MovieOption = MovieOption(value: string, labelText: string)

  /** What reading the body of an ok response yields: the payload, or the
      message of the exception thrown while parsing or reading it. */
  datatype Body<T> = Parsed(payload: T) | Malformed(message: string)

  /** How one `fetch` settles: rejected with a transport error, or resolved
      with a response whose `ok` flag and body the handler inspects. */
  datatype Reply<T> = TransportError(message: string) | Response(ok: bool, body: Body<T>)

  const NotOkMessage: string := "Network response was not ok"
  /** What reading `selectedMovie.value` throws when nothing is selected. */
  const NullSelectionMessage: string := "Cannot read properties of null (reading 'value')"
  const ErrorPrefix: string := "Error: "

  /** The message the `catch` block receives, or `None` when the call
      succeeded. A response that is not ok fails whatever its body holds. */
  function Failure<T>(reply: Reply<T>): (m: Option<string>)
    ensures m.None? <==> reply.Response? && reply.ok && reply.body.Parsed?
    ensures reply.Response? && !reply.ok ==> m == Some(NotOkMessage)
    ensures reply.TransportError? ==> m == Some(reply.message)
    ensures reply.Response? && reply.ok && reply.body.Malformed? ==> m == Some(reply.body.message)
  {
    match reply
    case TransportError(message) => Some(message)
    case Response(ok, body) =>
      if !ok then Some(NotOkMessage)
      else match body
        case Parsed(_) => None
        case Malformed(message) => Some(message)
  }

  /** `data.movies.map(movie => ({ value: movie, label: movie }))`. */
  function ToOptions(titles: seq<string>): (opts: seq<MovieOption>)
    ensures |opts| == |titles|
    ensures forall i :: 0 <= i < |titles| ==> opts[i].value == titles[i] && opts[i].labelText == titles[i]
  {
    if titles == [] then [] else [MovieOption(titles[0], titles[0])] + ToOptions(titles[1..])
  }

  /** One rendered result: `<img src alt>` and its caption. */
  datatype Card = Card(src: string, alt: string, caption: string)

  class App {
    var movies: seq<MovieOption>
    var selectedMovie: Option<MovieOption>
    var recommendations: seq<Recommendation>
    var loading: bool
    var error: Option<string>

    /** Every option the selector holds shows its own value. */
    ghost predicate Valid()
      reads this
    {
      forall i :: 0 <= i < |movies| ==> movies[i].value == movies[i].labelText
    }

    /** The initial `useState` values. */
    constructor ()
      ensures Valid()
      ensures movies == [] && selectedMovie == None && recommendations == []
      ensures !loading && error == None
    {
      movies := [];
      selectedMovie := None;
      recommendations := [];
      loading := false;
      error := None;
    }

    /** `fetchMovies`: a successful load replaces the options; any failure
      only records its message. */
    method FetchMovies(reply: Reply<seq<string>>)
      requires Valid()
      modifies this
      ensures Valid()
      ensures Failure(reply).None? ==> movies == ToOptions(reply.body.payload) && error == old(error)
      ensures Failure(reply).Some? ==> movies == old(movies) && error == Failure(reply)
      ensures selectedMovie == old(selectedMovie) && recommendations == old(recommendations)
      ensures loading == old(loading)
    {
      match reply
      case TransportError(message) =>
        error := Some(message);
      case Response(ok, body) =>
        if !ok {
          error := Some(NotOkMessage);
        } else {
          match body
          case Malformed(message) =>
            error := Some(message);
          case Parsed(titles) =>
            movies := ToOptions(titles);
        }
    }

    /** `onChange={setSelectedMovie}`: picking an option, or clearing it. */
    method Choose(choice: Option<MovieOption>)
      requires Valid()
      modifies this
      ensures Valid()
      ensures selectedMovie == choice
      ensures ActionDisabled() <==> choice.None?
      ensures movies == old(movies) && recommendations == old(recommendations)
      ensures loading == old(loading) && error == old(error)
    {
      selectedMovie := choice;
    }

    /** `disabled={!selectedMovie}`: `null` is falsy and every option object
      is truthy, even one whose title is the empty string. */
    predicate ActionDisabled(): (disabled: bool)
      reads this
      ensures disabled <==> selectedMovie == None
      ensures selectedMovie == Some(MovieOption("", "")) ==> !disabled
    {
      selectedMovie.None?
    }

    /** The synchronous start of `getRecommendations`: raise the loading flag,
      clear the error and build the request body, which cannot be built when
      nothing is selected. */
    method Dispatch() returns (request: Option<string>)
      requires Valid()
      modifies this
      ensures Valid()
      ensures loading && error == None
      ensures request.Some? <==> selectedMovie.Some?
      ensures request.None? <==> ActionDisabled()
      ensures request.Some? ==> request.value == selectedMovie.value.value
      ensures movies == old(movies) && selectedMovie == old(selectedMovie)
      ensures recommendations == old(recommendations)
    {
      loading := true;
      error := None;
      if selectedMovie.Some? {
        request := Some(selectedMovie.value.value);
      } else {
        request := None;
      }
    }

    /** The rest of `getRecommendations` once the call settles: the result or
      the message goes to its own slot, and the `finally` drops the flag. */
    method Settle(request: Option<string>, reply: Reply<seq<Recommendation>>)
      requires Valid()
      modifies this
      ensures Valid()
      ensures !loading
      ensures request.None? ==>
        error == Some(NullSelectionMessage) && recommendations == old(recommendations)
      ensures request.Some? && Failure(reply).None? ==>
        recommendations == reply.body.payload && error == old(error)
      ensures request.Some? && Failure(reply).Some? ==>
        error == Failure(reply) && recommendations == old(recommendations)
      ensures movies == old(movies) && selectedMovie == old(selectedMovie)
    {
      if request.None? {
        error := Some(NullSelectionMessage);
      } else {
        match reply
        case TransportError(message) =>
          error := Some(message);
        case Response(ok, body) =>
          if !ok {
            error := Some(NotOkMessage);
          } else {
            match body
            case Malformed(message) =>
              error := Some(message);
            case Parsed(results) =>
              recommendations := results;
          }
      }
      loading := false;
    }

    /** `getRecommendations` as one start-then-settle step. */
    method GetRecommendations(reply: Reply<seq<Recommendation>>) returns (request: Option<string>)
      requires Valid()
      modifies this
      ensures Valid()
      ensures !loading
      ensures request == if old(selectedMovie).Some? then Some(old(selectedMovie).value.value) else None
      ensures old(selectedMovie).None? ==>
        error == Some(NullSelectionMessage) && recommendations == old(recommendations)
      ensures old(selectedMovie).Some? && Failure(reply).None? ==>
        recommendations == reply.body.payload && error == None
      ensures old(selectedMovie).Some? && Failure(reply).Some? ==>
        error == Failure(reply) && recommendations == old(recommendations)
      ensures movies == old(movies) && selectedMovie == old(selectedMovie)
    {
      request := Dispatch();
      Settle(request, reply);
    }

    /** `{error && <p>Error: {error}</p>}`: shown only for a non-empty message. */
    function ErrorLine(): (line: Option<string>)
      reads this
      ensures line.Some? <==> error.Some? && error.value != ""
      ensures line.Some? ==> line.value == ErrorPrefix + error.value
    {
      if error.Some? && error.value != "" then Some(ErrorPrefix + error.value) else None
    }

    /** The results strip: one card per recommendation, in backend order. */
    function Results(): (cards: seq<Card>)
      reads this
      ensures |cards| == |recommendations|
      ensures forall i :: 0 <= i < |cards| ==>
        cards[i].src == recommendations[i].posterUrl
        && cards[i].alt == recommendations[i].title
        && cards[i].caption == recommendations[i].title
    {
      seq(|recommendations|, i requires 0 <= i < |recommendations| reads this =>
        Card(recommendations[i].posterUrl, recommendations[i].title, recommendations[i].title))
    }
  }

  /** A session in which the catalog loads, a title is chosen, its
      recommendations arrive and the selection is then cleared. */
  method ExampleSession()
  {
    var app := new App();
    assert app.ActionDisabled();
    app.FetchMovies(Response(true, Parsed(["A", "B"])));
    assert app.movies == [MovieOption("A", "A"), MovieOption("B", "B")];
    app.Choose(Some(app.movies[0]));
    assert !app.ActionDisabled();
    var request := app.GetRecommendations(Response(true, Parsed([Recommendation("X", "u")])));
    assert request == Some("A");
    assert !app.loading && app.ErrorLine() == None;
    assert app.Results() == [Card("u", "X", "X")];
    app.Choose(None);
    assert app.ActionDisabled();
    assert app.Results() == [Card("u", "X", "X")];
    request := app.GetRecommendations(Response(false, Parsed([])));
    assert app.ErrorLine() == Some(ErrorPrefix + NullSelectionMessage);
    assert app.Results() == [Card("u", "X", "X")];
  }
}
