/** The "Continue Watching" rail: a list of recently played titles read from
    `localStorage` under `zooper_continue_watching`, with a remove button and
    a play link per card. */
module ContinueWatching {
  import opened JsValues
  import opened Seqs
  import opened Storage
  import Decimal

  const ContinueKey := "zooper_continue_watching"

  datatype WatchItem = WatchItem(
    id: int,
    media_type: Option<string>,
    title: Option<string>,
    name: Option<string>,
    poster_path: Option<string>,
    backdrop_path: Option<string>,
    timestamp: Option<real>
  )

  /** `loadItems`: a stored payload that parses replaces the list; a missing
      key, empty text or a parse failure leaves the list as it was. */
  function LoadOrKeep(store: Store<WatchItem>, current: seq<WatchItem>): (r: seq<WatchItem>)
    ensures ContinueKey !in store ==> r == current
    ensures ContinueKey in store && Parse(store[ContinueKey]).None? ==> r == current
    ensures ContinueKey in store && Parse(store[ContinueKey]).Some? ==> r == Parse(store[ContinueKey]).value
  {
    match GetItem(store, ContinueKey)
    case None => current
    case Some(p) =>
      if !NonEmptyText(p) then current
      else
        match Parse(p)
        case Some(xs) => xs
        case None => current
  }

  /** `items.filter(item => item.id !== id)`: the match is on `id` alone,
      whatever the item's `media_type`. */
  function RemoveId(items: seq<WatchItem>, id: int): (r: seq<WatchItem>)
    ensures forall i :: 0 <= i < |r| ==> r[i].id != id
    ensures forall it :: it in r <==> it in items && it.id != id
    ensures forall it: WatchItem :: it.id != id ==> multiset(r)[it] == multiset(items)[it]
  {
    Filter(items, (it: WatchItem) => it.id != id)
  }

  /** Removing an id keeps the other items in their original order. */
  lemma RemoveIdKeepsOrder(a: seq<WatchItem>, b: seq<WatchItem>, id: int)
    ensures RemoveId(a + b, id) == RemoveId(a, id) + RemoveId(b, id)
  {
    FilterAppend(a, b, (it: WatchItem) => it.id != id);
  }

  /** Removing the same id a second time changes nothing. */
  lemma RemoveIdIdempotent(items: seq<WatchItem>, id: int)
    ensures RemoveId(RemoveId(items, id), id) == RemoveId(items, id)
  {
    FilterIdempotent(items, (it: WatchItem) => it.id != id);
  }

  /** What `handleRemove` writes, even an empty list, `loadItems` reads back. */
  lemma RemoveThenReload(store: Store<WatchItem>, items: seq<WatchItem>, current: seq<WatchItem>)
    ensures LoadOrKeep(store[ContinueKey := Stringify(items)], current) == items
  {
  }

  /** The route segment for the title kind: `item.media_type || 'movie'`. */
  function PlayKind(item: WatchItem): (k: string)
    ensures k != ""
    ensures Truthy(item.media_type) ==> k == item.media_type.value
    ensures !Truthy(item.media_type) ==> k == "movie"
  {
    OrDefault(item.media_type, "movie")
  }

  /** `handlePlay`'s destination. */
  function PlayRoute(item: WatchItem): string {
    "/player/" + PlayKind(item) + "/" + Decimal.IntToString(item.id)
  }

  function IndexOf(s: string, c: char): (r: Option<nat>)
    ensures r.None? <==> c !in s
    ensures r.Some? ==> r.value < |s| && s[r.value] == c && c !in s[..r.value]
  {
    if s == [] then None
    else if s[0] == c then Some(0)
    else
      match IndexOf(s[1..], c)
      case None => None
      case Some(k) =>
        assert s[..k + 1] == [s[0]] + s[1..][..k];
        Some(k + 1)
  }

  /** How the router matches `/player/:type?/:playerId` (without trailing
      slashes or percent-decoding): the optional `type` parameter and the
      `playerId` parameter. */
  function MatchPlayerRoute(path: string): Option<(Option<string>, string)> {
    if |path| < 8 || path[..8] != "/player/" then None
    else
      var rest := path[8..];
      match IndexOf(rest, '/')
      case None => if rest != "" then Some((None, rest)) else None
      case Some(k) =>
        var kind := rest[..k];
        var playerId := rest[k + 1..];
        if kind != "" && playerId != "" && '/' !in playerId then Some((Some(kind), playerId))
        else None
  }

  /** The play route reaches the player with the item's kind (defaulting to
      `movie`) as `type` and its id, printed in decimal, as `playerId`. */
  lemma PlayRouteMatches(item: WatchItem)
    requires '/' !in PlayKind(item)
    ensures MatchPlayerRoute(PlayRoute(item)).Some?
    ensures MatchPlayerRoute(PlayRoute(item)).value.0 == Some(PlayKind(item))
    ensures Decimal.ParseInt(MatchPlayerRoute(PlayRoute(item)).value.1) == Some(item.id)
  {
    var kind := PlayKind(item);
    var digits := Decimal.IntToString(item.id);
    var path := PlayRoute(item);
    assert path[..8] == "/player/";
    var rest := path[8..];
    assert rest == kind + "/" + digits;
    assert '/' !in digits;
    var k := IndexOf(rest, '/');
    assert rest[|kind|] == '/';
    assert rest[..|kind|] == kind;
    assert k == Some(|kind|);
    assert rest[|kind| + 1..] == digits;
    Decimal.ParseIntOfIntToString(item.id);
  }

  /** `Math.floor(timestamp / 60)`: the whole minutes in the resume offset. */
  function ResumeMinutes(t: real): (m: int)
    ensures (m as real) * 60.0 <= t < ((m + 1) as real) * 60.0
  {
    (t / 60.0).Floor
  }

  /** The caption under a card. */
  function ResumeLabel(item: WatchItem): string {
    if RealTruthy(item.timestamp) then
      "Resume from " + Decimal.IntToString(ResumeMinutes(item.timestamp.value)) + "m"
    else "Resume"
  }

  /** With a non-zero timestamp the caption carries the whole minutes,
      readable back from between its fixed prefix and suffix; without one it
      is the bare word. */
  lemma ResumeLabelShowsMinutes(item: WatchItem)
    ensures !RealTruthy(item.timestamp) ==> ResumeLabel(item) == "Resume"
    ensures RealTruthy(item.timestamp) ==>
      var caption := ResumeLabel(item);
      var m := item.timestamp.value;
      && |caption| > 13
      && caption[..12] == "Resume from "
      && caption[|caption| - 1] == 'm'
      && exists minutes :: Decimal.ParseInt(caption[12..|caption| - 1]) == Some(minutes)
                           && (minutes as real) * 60.0 <= m < ((minutes + 1) as real) * 60.0
  {
    if RealTruthy(item.timestamp) {
      var minutes := ResumeMinutes(item.timestamp.value);
      var digits := Decimal.IntToString(minutes);
      var caption := ResumeLabel(item);
      assert caption == "Resume from " + digits + "m";
      assert caption[12..|caption| - 1] == digits;
      Decimal.ParseIntOfIntToString(minutes);
    }
  }

  /** What one card shows and where it leads. */
  datatype Card = Card(
    title: Option<string>,
    image: Option<string>,
    caption: string,
    route: string,
    removeId: int
  )

  function CardOf(item: WatchItem): (c: Card)
    ensures c.route == PlayRoute(item) && c.caption == ResumeLabel(item) && c.removeId == item.id
    ensures c.title == (if Truthy(item.title) then item.title else item.name)
    ensures c.image == (if Truthy(item.backdrop_path) then item.backdrop_path else item.poster_path)
    ensures Truthy(c.title) <==> Truthy(item.title) || Truthy(item.name)
    ensures Truthy(c.image) <==> Truthy(item.backdrop_path) || Truthy(item.poster_path)
  {
    Card(Or(item.title, item.name), Or(item.backdrop_path, item.poster_path),
         ResumeLabel(item), PlayRoute(item), item.id)
  }

  /** The rendered rail: nothing at all for an empty list, otherwise one card
      per item in list order. */
  function Render(items: seq<WatchItem>): (r: Option<seq<Card>>)
    ensures r.None? <==> |items| == 0
    ensures r.Some? ==> |r.value| == |items| && forall i :: 0 <= i < |items| ==> r.value[i] == CardOf(items[i])
  {
    if |items| == 0 then None else Some(seq(|items|, i requires 0 <= i < |items| => CardOf(items[i])))
  }

  class ContinueWatchingRow {
    var items: seq<WatchItem>
    var store: Store<WatchItem>

    /** Mounting starts from an empty list and runs `loadItems` once. */
    constructor (initial: Store<WatchItem>)
      ensures items == LoadOrKeep(initial, [])
      ensures store == initial
    {
      items := [];
      store := initial;
      new;
      LoadItems();
    }

    /** `loadItems`, also run on every `storage` event. */
    method LoadItems()
      modifies this`items
      ensures items == LoadOrKeep(store, old(items))
    {
      items := LoadOrKeep(store, items);
    }

    /** `handleRemove`: drop the id and write the result back, even when
        nothing is left. */
    method HandleRemove(id: int)
      modifies this
      ensures items == RemoveId(old(items), id)
      ensures store == old(store)[ContinueKey := Stringify(items)]
      ensures LoadOrKeep(store, old(items)) == items
    {
      var newItems := RemoveId(items, id);
      items := newItems;
      store := store[ContinueKey := Stringify(newItems)];
    }

    function View(): (r: Option<seq<Card>>)
      reads this
      ensures r.None? <==> items == []
    {
      Render(items)
    }
  }
}
