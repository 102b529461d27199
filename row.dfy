/** A horizontal row of title cards: either the titles handed in by the
    page or, for a genre row, the ones its data hook fetched; with a
    "View More" button that picks a listing page and a genre filter. */
module Row {
  import opened JsValues
  import opened Seqs
  import opened Tmdb

  /** What "View More" does to the shared genre filter. */
  datatype GenreUpdate = KeepGenre | SetGenre(genre: int) | ClearGenre

  datatype ViewMore = ViewMore(genre: GenreUpdate, route: string)

  /** `handleViewMore`, as the update it applies and the page it opens. */
  function HandleViewMore(mediaType: string, genreId: Option<int>): (d: ViewMore)
    ensures d.route == (if mediaType == "tv" then "/TV-Shows" else "/films")
    ensures IntTruthy(genreId) ==> d.genre == SetGenre(genreId.value)
    ensures !IntTruthy(genreId) && mediaType == "tv" ==> d.genre == KeepGenre
    ensures !IntTruthy(genreId) && mediaType != "tv" ==> d.genre == ClearGenre
  {
    if mediaType == "tv" then
      ViewMore(if IntTruthy(genreId) then SetGenre(genreId.value) else KeepGenre, "/TV-Shows")
    else
      ViewMore(if IntTruthy(genreId) then SetGenre(genreId.value) else ClearGenre, "/films")
  }

  /** The genre filter after an update (`null` is `None`). */
  function ApplyGenre(current: Option<int>, u: GenreUpdate): Option<int> {
    match u
    case KeepGenre => current
    case SetGenre(g) => Some(g)
    case ClearGenre => None
  }

  /** A film row's "View More" fixes the filter whatever it was before; a
      TV row without a genre leaves any previous filter in place. */
  lemma ViewMoreGenreAsymmetry(mediaType: string, genreId: Option<int>, current: Option<int>)
    ensures mediaType != "tv" ==>
      ApplyGenre(current, HandleViewMore(mediaType, genreId).genre)
      == (if IntTruthy(genreId) then genreId else None)
    ensures mediaType == "tv" ==>
      ApplyGenre(current, HandleViewMore(mediaType, genreId).genre)
      == (if IntTruthy(genreId) then genreId else current)
  {
  }

  /** The `mediaType` prop, with its default for an `undefined` value
      (`None`; a `null` prop is not modelled). */
  function RowMediaType(prop: Option<string>): string
  {
    match prop
    case None => "movie"
    case Some(t) => t
  }

  /** What the data hook hands back; a missing `data` is `None`. */
  datatype FetchResult = FetchResult(data: Option<seq<Media>>, loading: bool, error: bool)

  /** Line 10: the hook's result for a row with a genre, a fixed empty
      result otherwise. */
  function RowFetch(genreId: Option<int>, hook: FetchResult): FetchResult
  {
    if IntTruthy(genreId) then hook else FetchResult(Some([]), false, false)
  }

  /** `movies || fetchedMovies`: a list handed in by the page wins, even
      when it is empty. */
  function DisplayMovies(movies: Option<seq<Media>>, fetched: Option<seq<Media>>): Option<seq<Media>>
  {
    if movies.Some? then movies else fetched
  }

  datatype Card = Card(id: int, poster_path: Option<string>, media_type: string)

  /** `movie.media_type || mediaType`: a title's own kind wins over the
      row's. */
  function CardOf(m: Media, rowType: string): (c: Card)
    ensures c.id == m.id && c.poster_path == m.poster_path
    ensures Truthy(m.media_type) ==> c.media_type == m.media_type.value
    ensures !Truthy(m.media_type) ==> c.media_type == rowType
  {
    Card(m.id, m.poster_path, OrDefault(m.media_type, rowType))
  }

  /** One card per title, in order. */
  function CardsOf(ms: seq<Media>, rowType: string): (cs: seq<Card>)
    ensures |cs| == |ms|
    ensures forall i :: 0 <= i < |ms| ==> cs[i] == CardOf(ms[i], rowType)
  {
    if ms == [] then [] else [CardOf(ms[0], rowType)] + CardsOf(ms[1..], rowType)
  }

  lemma CardsOfAppend(a: seq<Media>, b: seq<Media>, rowType: string)
    ensures CardsOf(a + b, rowType) == CardsOf(a, rowType) + CardsOf(b, rowType)
  {
    assert forall i :: 0 <= i < |a| + |b| ==>
      CardsOf(a + b, rowType)[i] == (CardsOf(a, rowType) + CardsOf(b, rowType))[i];
  }

  /** The `map` that renders a card for a title with a poster and `null`,
      which React drops, for the others. */
  function PosterCards(ms: seq<Media>, rowType: string): (cs: seq<Card>)
    ensures |cs| <= |ms|
    ensures forall i :: 0 <= i < |cs| ==> Truthy(cs[i].poster_path)
    ensures forall m :: m in ms && Truthy(m.poster_path) ==> CardOf(m, rowType) in cs
    ensures forall c :: c in cs ==> exists m :: m in ms && Truthy(m.poster_path) && c == CardOf(m, rowType)
  {
    var kept := Filter(ms, (m: Media) => Truthy(m.poster_path));
    var cs := CardsOf(kept, rowType);
    assert forall m :: m in kept ==> CardOf(m, rowType) in cs by {
      forall m | m in kept ensures CardOf(m, rowType) in cs {
        var i :| 0 <= i < |kept| && kept[i] == m;
        assert cs[i] == CardOf(m, rowType);
      }
    }
    assert forall c :: c in cs ==> exists m :: m in kept && c == CardOf(m, rowType) by {
      forall c | c in cs ensures exists m :: m in kept && c == CardOf(m, rowType) {
        var i :| 0 <= i < |cs| && cs[i] == c;
        assert kept[i] in kept;
      }
    }
    cs
  }

  /** The cards keep the order of the titles. */
  lemma PosterCardsKeepOrder(a: seq<Media>, b: seq<Media>, rowType: string)
    ensures PosterCards(a + b, rowType) == PosterCards(a, rowType) + PosterCards(b, rowType)
  {
    var p := (m: Media) => Truthy(m.poster_path);
    FilterAppend(a, b, p);
    CardsOfAppend(Filter(a, p), Filter(b, p), rowType);
  }

  datatype RowView = Skeleton | Hidden | Cards(cards: seq<Card>)

  datatype RowProps = RowProps(genreId: Option<int>, movies: Option<seq<Media>>, mediaType: Option<string>)

  /** The component's render: the skeleton while a genre row without page
      titles loads, nothing on an error or an empty list, else the cards. */
  function View(props: RowProps, hook: FetchResult): (v: RowView)
    ensures var f := RowFetch(props.genreId, hook);
      && (v.Skeleton? <==> f.loading && props.movies.None?)
      && (v.Hidden? <==> (!(f.loading && props.movies.None?) &&
            ((f.error && props.movies.None?) || DisplayMovies(props.movies, f.data) in {None, Some([])})))
      && (v.Cards? ==> v.cards == PosterCards(DisplayMovies(props.movies, f.data).value, RowMediaType(props.mediaType)))
  {
    var f := RowFetch(props.genreId, hook);
    var display := DisplayMovies(props.movies, f.data);
    if f.loading && props.movies.None? then Skeleton
    else if f.error && props.movies.None? then Hidden
    else if display.None? || |display.value| == 0 then Hidden
    else Cards(PosterCards(display.value, RowMediaType(props.mediaType)))
  }

  /** A row handed its titles by the page never shows the skeleton and never
      hides on a fetch error. */
  lemma PageTitlesIgnoreFetchState(props: RowProps, hook: FetchResult)
    requires props.movies.Some? && |props.movies.value| > 0
    ensures View(props, hook) == Cards(PosterCards(props.movies.value, RowMediaType(props.mediaType)))
  {
  }

  /** FINDING, as written: the shown data hook returns the bare list of
      titles, so destructuring `{ data, loading, error }` from it yields
      three missing values. */
  function HookAsWritten(fetched: seq<Media>): FetchResult
  {
    FetchResult(None, false, false)
  }

  /** ... hence a genre row without page titles is hidden whatever was
      fetched. */
  lemma GenreRowHiddenAsWritten(genreId: Option<int>, mediaType: Option<string>, fetched: seq<Media>)
    requires IntTruthy(genreId)
    ensures View(RowProps(genreId, None, mediaType), HookAsWritten(fetched)) == Hidden
  {
  }

  /** Corrected: a hook that reports `{ data, loading, error }`. */
  function HookCorrected(fetched: seq<Media>, loading: bool, error: bool): FetchResult
  {
    FetchResult(Some(fetched), loading, error)
  }

  /** With it, a genre row shows the skeleton while loading and, once the
      titles are in, one card per fetched title with a poster. */
  lemma GenreRowShowsFetched(genreId: Option<int>, mediaType: Option<string>, fetched: seq<Media>, loading: bool)
    requires IntTruthy(genreId)
    ensures loading ==> View(RowProps(genreId, None, mediaType), HookCorrected(fetched, loading, false)) == Skeleton
    ensures !loading && |fetched| > 0 ==>
      View(RowProps(genreId, None, mediaType), HookCorrected(fetched, loading, false))
      == Cards(PosterCards(fetched, RowMediaType(mediaType)))
  {
  }
}
