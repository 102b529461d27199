/** The hero banner: a carousel over the titles that have both a backdrop
    and an overview, advanced by a timer and rewound when the list of such
    titles changes length. */
module HeroBanner {
  import opened JsValues
  import opened Seqs
  import opened Tmdb

  /** `movies.filter(movie => movie.backdrop_path && movie.overview)`. */
  function Featured(movies: seq<Media>): (r: seq<Media>)
    ensures forall i :: 0 <= i < |r| ==> Truthy(r[i].backdrop_path) && Truthy(r[i].overview)
    ensures forall m :: m in r <==> m in movies && Truthy(m.backdrop_path) && Truthy(m.overview)
  {
    Filter(movies, (m: Media) => Truthy(m.backdrop_path) && Truthy(m.overview))
  }

  /** The filter keeps input order. */
  lemma FeaturedKeepsOrder(a: seq<Media>, b: seq<Media>)
    ensures Featured(a + b) == Featured(a) + Featured(b)
  {
    FilterAppend(a, b, (m: Media) => Truthy(m.backdrop_path) && Truthy(m.overview));
  }

  /** One timer tick: `prevIndex === length - 1 ? 0 : prevIndex + 1`. */
  function Step(i: int, len: int): (r: int)
    ensures 0 <= i < len ==> 0 <= r < len
    ensures 0 <= i < len - 1 ==> r == i + 1
    ensures i == len - 1 ==> r == 0
  {
    if i == len - 1 then 0 else i + 1
  }

  /** The index after `k` ticks from `i`. */
  function Ticks(i: int, len: int, k: nat): int
    decreases k
  {
    if k == 0 then i else Ticks(Step(i, len), len, k - 1)
  }

  lemma {:induction false} TicksCompose(i: int, len: int, a: nat, b: nat)
    ensures Ticks(i, len, a + b) == Ticks(Ticks(i, len, a), len, b)
    decreases a
  {
    if a > 0 {
      TicksCompose(Step(i, len), len, a - 1, b);
    }
  }

  /** Below the last index, each tick moves one place forward. */
  lemma {:induction false} TicksCount(i: int, len: int, k: nat)
    requires 0 <= i && i + k < len
    ensures Ticks(i, len, k) == i + k
    decreases k
  {
    if k > 0 {
      TicksCount(i + 1, len, k - 1);
    }
  }

  /** From 0, the first `len` ticks visit every index once, in order, and
      tick `len` is back at 0; hence the carousel cycles with period `len`. */
  lemma CycleVisitsEachOnce(len: int)
    requires len > 0
    ensures forall k: nat :: k < len ==> Ticks(0, len, k) == k
    ensures forall k1: nat, k2: nat :: k1 < k2 < len ==> Ticks(0, len, k1) != Ticks(0, len, k2)
    ensures Ticks(0, len, len) == 0
  {
    forall k: nat | k < len ensures Ticks(0, len, k) == k {
      TicksCount(0, len, k);
    }
    TicksCompose(0, len, len - 1, 1);
  }

  lemma CyclePeriodic(len: int, k: nat)
    requires len > 0
    ensures Ticks(0, len, k + len) == Ticks(0, len, k)
  {
    CycleVisitsEachOnce(len);
    TicksCompose(0, len, len, k);
  }

  /** `movie.title ? movie.title : movie.name`. */
  function Title(m: Media): (t: Option<string>)
    ensures Truthy(m.title) ==> t == m.title
    ensures !Truthy(m.title) ==> t == m.name
  {
    Or(m.title, m.name)
  }

  /** `movie.release_date?.slice(0, 4)`: at most the first four characters
      of the release date; a series' `first_air_date` is never consulted. */
  function Year(m: Media): (y: Option<string>)
    ensures m.release_date.None? <==> y.None?
    ensures y.Some? ==> |y.value| == Min(4, |m.release_date.value|)
                        && y.value == m.release_date.value[..|y.value|]
  {
    match m.release_date
    case None => None
    case Some(d) => Some(d[..Min(4, |d|)])
  }

  function Min(a: int, b: int): int {
    if a < b then a else b
  }

  /** What the banner shows: nothing for an empty list, the title at the
      index otherwise; reading past the end of the list throws a
      `TypeError` during rendering. */
  datatype Banner =
    | Hidden
    | Shown(id: int, backdrop: Option<string>, title: Option<string>, year: Option<string>, overview: Option<string>)
    | Crash

  function RenderAt(featured: seq<Media>, index: int): (b: Banner)
    ensures b.Hidden? <==> |featured| == 0
    ensures b.Crash? <==> |featured| > 0 && !(0 <= index < |featured|)
    ensures b.Shown? <==> 0 <= index < |featured|
    ensures b.Shown? ==> b.id == featured[index].id && b.title == Title(featured[index])
                         && b.year == Year(featured[index]) && b.backdrop == featured[index].backdrop_path
                         && b.overview == featured[index].overview
  {
    if |featured| == 0 then Hidden
    else if 0 <= index < |featured| then
      var m := featured[index];
      Shown(m.id, m.backdrop_path, Title(m), Year(m), m.overview)
    else Crash
  }

  /** The carousel index invariant: an index inside the list, or 0 when the
      list is empty. */
  predicate IndexFits(index: int, len: int) {
    (len == 0 && index == 0) || 0 <= index < len
  }

  /** FINDING, as written: the first paint after new props still uses the
      index from before the reset effect. */
  function StaleFirstPaint(newFeatured: seq<Media>, oldIndex: int): (b: Banner)
    ensures 0 < |newFeatured| <= oldIndex ==> b.Crash?
  {
    RenderAt(newFeatured, oldIndex)
  }

  /** From a list with more featured titles than the new one, ticking
      from 0 up to an index past the new list's end and then receiving the
      new props makes the first paint read past the end: with six featured
      titles, five ticks, then three featured titles, index 5 is read from a
      three-element list. */
  lemma StaleFirstPaintCrashes(before: seq<Media>, after: seq<Media>, ticks: nat)
    requires 0 < |Featured(after)| <= ticks < |Featured(before)|
    ensures IndexFits(Ticks(0, |Featured(before)|, ticks), |Featured(before)|)
    ensures StaleFirstPaint(Featured(after), Ticks(0, |Featured(before)|, ticks)).Crash?
  {
    TicksCount(0, |Featured(before)|, ticks);
  }

  /** Corrected: the index is rewound in the same render that sees the new
      length, so the first paint is of index 0 whenever the length changed. */
  function FirstPaint(oldLen: int, newFeatured: seq<Media>, oldIndex: int): (b: Banner)
    ensures |newFeatured| != oldLen ==> b == RenderAt(newFeatured, 0)
    ensures |newFeatured| == oldLen ==> b == RenderAt(newFeatured, oldIndex)
  {
    RenderAt(newFeatured, if |newFeatured| != oldLen then 0 else oldIndex)
  }

  /** From any state that keeps the index invariant, the corrected first
      paint never reads past the end of the list. */
  lemma FirstPaintNeverCrashes(oldLen: int, newFeatured: seq<Media>, oldIndex: int)
    requires IndexFits(oldIndex, oldLen)
    ensures !FirstPaint(oldLen, newFeatured, oldIndex).Crash?
    ensures |newFeatured| != oldLen ==> FirstPaint(oldLen, newFeatured, oldIndex) == RenderAt(newFeatured, 0)
  {
  }

  class Carousel {
    var movies: seq<Media>
    var currentIndex: int

    ghost predicate Valid()
      reads this
    {
      IndexFits(currentIndex, |Featured(movies)|)
    }

    /** Mounting starts at index 0; the reset effect keeps it there. */
    constructor (movies: seq<Media>)
      ensures this.movies == movies && currentIndex == 0
      ensures Valid()
    {
      this.movies := movies;
      currentIndex := 0;
    }

    /** The interval callback. No interval exists while the list is empty. */
    method Tick()
      requires Valid()
      modifies this`currentIndex
      ensures Valid()
      ensures |Featured(movies)| == 0 ==> currentIndex == old(currentIndex)
      ensures |Featured(movies)| > 0 ==> currentIndex == Step(old(currentIndex), |Featured(movies)|)
    {
      var len := |Featured(movies)|;
      if len != 0 {
        currentIndex := Step(currentIndex, len);
      }
    }

    /** New `movies` props: the index is rewound to 0 exactly when the
        number of featured titles changes; `firstPaint` is what the banner
        shows for them (corrected as above). */
    method ReceiveProps(newMovies: seq<Media>) returns (firstPaint: Banner)
      requires Valid()
      modifies this
      ensures movies == newMovies
      ensures currentIndex == if |Featured(newMovies)| != |Featured(old(movies))| then 0 else old(currentIndex)
      ensures firstPaint == FirstPaint(|Featured(old(movies))|, Featured(newMovies), old(currentIndex))
      ensures firstPaint == View()
      ensures Valid()
    {
      var oldLen := |Featured(movies)|;
      movies := newMovies;
      if |Featured(movies)| != oldLen {
        currentIndex := 0;
      }
      firstPaint := RenderAt(Featured(movies), currentIndex);
    }

    /** The banner for the current state; it never crashes while the index
        invariant holds. */
    function View(): (b: Banner)
      reads this
      ensures Valid() ==> !b.Crash?
      ensures b.Hidden? <==> |Featured(movies)| == 0
    {
      RenderAt(Featured(movies), currentIndex)
    }
  }
}
