/** The `useFavorites` hook: a list of favorite records keyed by
    `(id, type)`, most recent first, mirrored into `localStorage` under
    `zooper_favorites`. */
module Favorites {
  import opened JsValues
  import opened Seqs
  import opened Storage
  import opened Tmdb

  const FavoritesKey := "zooper_favorites"

  /** A normalised favorite record; `kind` is the record's `type` property. */
  datatype Fav = Fav(
    id: int,
    kind: string,
    title: Option<string>,
    poster: Option<string>,
    backdrop: Option<string>,
    rating: Option<real>,
    releaseDate: Option<string>,
    overview: Option<string>,
    addedAt: string
  )

  /** The record `toggleFavorite` builds from a loosely shaped title;
      `addedAt` is the clock reading taken at the call. */
  function MakeFav(c: Media, addedAt: string): (f: Fav)
    ensures f.id == c.id && f.addedAt == addedAt
    ensures f.kind != ""
    ensures Truthy(c.media_type) ==> f.kind == c.media_type.value
    ensures !Truthy(c.media_type) ==> f.kind == "movie"
    ensures Truthy(c.title) ==> f.title == c.title
    ensures !Truthy(c.title) ==> f.title == c.name
    ensures Truthy(c.release_date) ==> f.releaseDate == c.release_date
    ensures !Truthy(c.release_date) ==> f.releaseDate == c.first_air_date
    ensures f.poster == c.poster_path && f.backdrop == c.backdrop_path
    ensures f.rating == c.vote_average && f.overview == c.overview
  {
    Fav(
      c.id,
      OrDefault(c.media_type, "movie"),
      Or(c.title, c.name),
      c.poster_path,
      c.backdrop_path,
      c.vote_average,
      Or(c.release_date, c.first_air_date),
      c.overview,
      addedAt)
  }

  /** `item.id === id && item.type === type`. */
  predicate SameKey(f: Fav, id: int, kind: string) {
    f.id == id && f.kind == kind
  }

  /** `favorites.some(item => item.id === id && item.type === type)`. */
  function Contains(xs: seq<Fav>, id: int, kind: string): (b: bool)
    ensures b <==> exists i :: 0 <= i < |xs| && SameKey(xs[i], id, kind)
  {
    if xs == [] then false
    else SameKey(xs[0], id, kind) || Contains(xs[1..], id, kind)
  }

  /** `prev.find(...)`: the first entry with the key, if any. */
  function Find(xs: seq<Fav>, id: int, kind: string): (r: Option<Fav>)
    ensures r.Some? <==> Contains(xs, id, kind)
    ensures r.Some? ==> exists i :: 0 <= i < |xs| && xs[i] == r.value && SameKey(xs[i], id, kind)
                          && forall j :: 0 <= j < i ==> !SameKey(xs[j], id, kind)
  {
    if xs == [] then None
    else if SameKey(xs[0], id, kind) then Some(xs[0])
    else
      var r := Find(xs[1..], id, kind);
      if r.Some? then
        ghost var i :| 0 <= i < |xs[1..]| && xs[1..][i] == r.value && SameKey(xs[1..][i], id, kind)
                       && forall j :: 0 <= j < i ==> !SameKey(xs[1..][j], id, kind);
        assert xs[i + 1] == r.value && forall j :: 0 <= j < i + 1 ==> !SameKey(xs[j], id, kind) by {
          forall j | 0 <= j < i + 1 ensures !SameKey(xs[j], id, kind) {
            if j > 0 { assert xs[j] == xs[1..][j - 1]; }
          }
        }
        r
      else r
  }

  /** `prev.filter(item => !(item.id === id && item.type === type))`. */
  function Without(xs: seq<Fav>, id: int, kind: string): (r: seq<Fav>)
    ensures !Contains(r, id, kind)
    ensures forall f :: f in r <==> f in xs && !SameKey(f, id, kind)
  {
    Filter(xs, (f: Fav) => !SameKey(f, id, kind))
  }

  /** Removing a key from a concatenation removes it from each part: the
      entries that stay keep their relative order. */
  lemma WithoutAppend(a: seq<Fav>, b: seq<Fav>, id: int, kind: string)
    ensures Without(a + b, id, kind) == Without(a, id, kind) + Without(b, id, kind)
  {
    FilterAppend(a, b, (f: Fav) => !SameKey(f, id, kind));
  }

  /** The entries that carry one key, in list order. */
  function Entries(xs: seq<Fav>, id: int, kind: string): (r: seq<Fav>)
    ensures forall i :: 0 <= i < |r| ==> SameKey(r[i], id, kind)
  {
    Filter(xs, (f: Fav) => SameKey(f, id, kind))
  }

  /** The list `toggleFavorite` computes from the previous one. */
  function Toggle(xs: seq<Fav>, item: Fav): (r: seq<Fav>)
    ensures !Contains(xs, item.id, item.kind) ==> r == [item] + xs
    ensures Contains(xs, item.id, item.kind) ==> r == Without(xs, item.id, item.kind)
    ensures Contains(r, item.id, item.kind) <==> !Contains(xs, item.id, item.kind)
  {
    if Find(xs, item.id, item.kind).Some? then Without(xs, item.id, item.kind)
    else [item] + xs
  }

  /** At most one entry per `(id, type)`. */
  ghost predicate NoDupKeys(xs: seq<Fav>) {
    xs == [] || (!Contains(xs[1..], xs[0].id, xs[0].kind) && NoDupKeys(xs[1..]))
  }

  lemma {:induction false} NoDupKeysPairwise(xs: seq<Fav>)
    ensures NoDupKeys(xs) <==> forall i, j :: 0 <= i < j < |xs| ==> !SameKey(xs[j], xs[i].id, xs[i].kind)
  {
    if xs != [] {
      NoDupKeysPairwise(xs[1..]);
      if NoDupKeys(xs) {
        forall i, j | 0 <= i < j < |xs| ensures !SameKey(xs[j], xs[i].id, xs[i].kind) {
          if i > 0 {
            assert xs[i] == xs[1..][i - 1] && xs[j] == xs[1..][j - 1];
          } else {
            assert xs[j] == xs[1..][j - 1];
          }
        }
      }
      if forall i, j :: 0 <= i < j < |xs| ==> !SameKey(xs[j], xs[i].id, xs[i].kind) {
        forall i, j | 0 <= i < j < |xs[1..]| ensures !SameKey(xs[1..][j], xs[1..][i].id, xs[1..][i].kind) {
          assert xs[1..][j] == xs[j + 1] && xs[1..][i] == xs[i + 1];
        }
        forall j | 0 <= j < |xs[1..]| ensures !SameKey(xs[1..][j], xs[0].id, xs[0].kind) {
          assert xs[1..][j] == xs[j + 1];
        }
      }
    }
  }

  /** An entry of the list makes its key present. */
  lemma MemberContains(xs: seq<Fav>, f: Fav)
    requires f in xs
    ensures Contains(xs, f.id, f.kind)
  {
    var i :| 0 <= i < |xs| && xs[i] == f;
  }

  /** A key present in a list is present in any list holding its entries. */
  lemma ContainsMonotone(a: seq<Fav>, b: seq<Fav>, id: int, kind: string)
    requires forall f :: f in a ==> f in b
    ensures Contains(a, id, kind) ==> Contains(b, id, kind)
  {
    if Contains(a, id, kind) {
      var i :| 0 <= i < |a| && SameKey(a[i], id, kind);
      MemberContains(b, a[i]);
    }
  }

  /** Removing every entry with one key keeps the keys of the rest unique. */
  lemma {:induction false} WithoutKeepsNoDupKeys(xs: seq<Fav>, id: int, kind: string)
    requires NoDupKeys(xs)
    ensures NoDupKeys(Without(xs, id, kind))
  {
    if xs != [] {
      var x := xs[0];
      WithoutKeepsNoDupKeys(xs[1..], id, kind);
      var rest := Without(xs[1..], id, kind);
      assert Without(xs, id, kind) == if SameKey(x, id, kind) then rest else [x] + rest;
      ContainsMonotone(rest, xs[1..], x.id, x.kind);
      assert ([x] + rest)[1..] == rest;
    }
  }

  /** `toggleFavorite` never creates a second entry for a key. */
  lemma ToggleKeepsNoDupKeys(xs: seq<Fav>, item: Fav)
    requires NoDupKeys(xs)
    ensures NoDupKeys(Toggle(xs, item))
  {
    if Contains(xs, item.id, item.kind) {
      WithoutKeepsNoDupKeys(xs, item.id, item.kind);
    } else {
      assert Toggle(xs, item)[1..] == xs;
    }
  }

  /** Removing a key that is absent changes nothing. */
  lemma RemoveAbsentIsNoop(xs: seq<Fav>, id: int, kind: string)
    requires !Contains(xs, id, kind)
    ensures Without(xs, id, kind) == xs
  {
    FilterKeepsAll(xs, (f: Fav) => !SameKey(f, id, kind));
  }

  /** `removeFromFavorites` is idempotent. */
  lemma RemoveIdempotent(xs: seq<Fav>, id: int, kind: string)
    ensures Without(Without(xs, id, kind), id, kind) == Without(xs, id, kind)
  {
    RemoveAbsentIsNoop(Without(xs, id, kind), id, kind);
  }

  /** Removing one key leaves the entries of every other key exactly as they
      were, in the same order. */
  lemma RemoveKeepsOtherKeys(xs: seq<Fav>, id: int, kind: string, id': int, kind': string)
    requires id != id' || kind != kind'
    ensures Entries(Without(xs, id, kind), id', kind') == Entries(xs, id', kind')
  {
    var notK := (f: Fav) => !SameKey(f, id, kind);
    var isK' := (f: Fav) => SameKey(f, id', kind');
    FilterCommute(xs, notK, isK');
    FilterKeepsAll(Filter(xs, isK'), notK);
  }

  /** ... and in particular every other key stays present or absent. */
  lemma RemoveKeepsOtherMembership(xs: seq<Fav>, id: int, kind: string, id': int, kind': string)
    requires id != id' || kind != kind'
    ensures Contains(Without(xs, id, kind), id', kind') == Contains(xs, id', kind')
  {
    if Contains(xs, id', kind') {
      var i :| 0 <= i < |xs| && SameKey(xs[i], id', kind');
      assert xs[i] in Without(xs, id, kind);
      MemberContains(Without(xs, id, kind), xs[i]);
    }
  }

  /** Toggling the same title twice, from a list without it, restores the
      list exactly (the two records may differ in `addedAt` and the other
      copied fields). */
  lemma ToggleTwiceRestores(xs: seq<Fav>, a: Fav, b: Fav)
    requires a.id == b.id && a.kind == b.kind
    requires !Contains(xs, a.id, a.kind)
    ensures Toggle(Toggle(xs, a), b) == xs
  {
    var notK := (f: Fav) => !SameKey(f, a.id, a.kind);
    FilterAppend([a], xs, notK);
    RemoveAbsentIsNoop(xs, a.id, a.kind);
    assert Filter([a], notK) == [];
  }

  /** The mount-time load: a missing key or a payload that does not parse
      leaves the initial empty list; otherwise the parsed list is used. */
  function LoadFavorites(store: Store<Fav>): (r: seq<Fav>)
    ensures GetItem(store, FavoritesKey).None? ==> r == []
    ensures FavoritesKey in store && Parse(store[FavoritesKey]).None? ==> r == []
    ensures FavoritesKey in store && Parse(store[FavoritesKey]).Some? ==> r == Parse(store[FavoritesKey]).value
  {
    match GetItem(store, FavoritesKey)
    case None => []
    case Some(p) =>
      if !NonEmptyText(p) then []
      else
        match Parse(p)
        case Some(xs) => xs
        case None => []
  }

  /** The save effect: a non-empty list is written, an empty one removes the
      key; no other key is touched. */
  function SaveFavorites(store: Store<Fav>, favs: seq<Fav>): (r: Store<Fav>)
    ensures FavoritesKey in r <==> |favs| > 0
    ensures FavoritesKey in r ==> r[FavoritesKey] == Stringify(favs)
    ensures forall k :: k != FavoritesKey ==> (k in r <==> k in store)
    ensures forall k :: k != FavoritesKey && k in r ==> r[k] == store[k]
  {
    if |favs| > 0 then store[FavoritesKey := Stringify(favs)]
    else store - {FavoritesKey}
  }

  /** What the save effect writes, the next mount loads back. */
  lemma SaveThenLoad(store: Store<Fav>, favs: seq<Fav>)
    ensures LoadFavorites(SaveFavorites(store, favs)) == favs
  {
  }

  class FavoritesHook {
    var favorites: seq<Fav>
    var store: Store<Fav>

    /** The store holds exactly what the save effect last wrote. */
    ghost predicate Synced()
      reads this
    {
      && (FavoritesKey in store <==> |favorites| > 0)
      && (FavoritesKey in store ==> store[FavoritesKey] == Stringify(favorites))
    }

    /** Mounting runs the load effect, then the save effect on the result. */
    constructor (initial: Store<Fav>)
      ensures favorites == LoadFavorites(initial)
      ensures store == SaveFavorites(initial, favorites)
      ensures Synced()
    {
      favorites := [];
      store := initial;
      new;
      favorites := LoadFavorites(store);
      SaveEffect();
    }

    /** The effect that mirrors `favorites` into the store after each change. */
    method SaveEffect()
      modifies this`store
      ensures store == SaveFavorites(old(store), favorites)
      ensures Synced()
    {
      store := SaveFavorites(store, favorites);
    }

    function IsFavorite(id: int, kind: string): (b: bool)
      reads this
      ensures b <==> exists i :: 0 <= i < |favorites| && SameKey(favorites[i], id, kind)
    {
      Contains(favorites, id, kind)
    }

    /** The held list; while synced it is also what a reload would see. */
    function GetAllFavorites(): (r: seq<Fav>)
      reads this
      ensures Synced() ==> LoadFavorites(store) == r
    {
      favorites
    }

    method ToggleFavorite(content: Media, addedAt: string)
      modifies this
      ensures favorites == Toggle(old(favorites), MakeFav(content, addedAt))
      ensures store == SaveFavorites(old(store), favorites)
      ensures Synced()
      ensures IsFavorite(content.id, MakeFav(content, addedAt).kind)
              <==> !old(IsFavorite(content.id, MakeFav(content, addedAt).kind))
      ensures old(NoDupKeys(favorites)) ==> NoDupKeys(favorites)
    {
      var item := MakeFav(content, addedAt);
      ghost var before := favorites;
      var found := Find(favorites, content.id, item.kind);
      if found.Some? {
        favorites := Without(favorites, content.id, item.kind);
      } else {
        favorites := [item] + favorites;
      }
      if NoDupKeys(before) {
        ToggleKeepsNoDupKeys(before, item);
      }
      SaveEffect();
    }

    method ClearFavorites()
      modifies this
      ensures favorites == []
      ensures store == old(store) - {FavoritesKey}
      ensures Synced()
    {
      favorites := [];
      store := store - {FavoritesKey};
      SaveEffect();
    }

    method RemoveFromFavorites(id: int, kind: string)
      modifies this
      ensures favorites == Without(old(favorites), id, kind)
      ensures store == SaveFavorites(old(store), favorites)
      ensures Synced()
      ensures !IsFavorite(id, kind)
      ensures old(NoDupKeys(favorites)) ==> NoDupKeys(favorites)
    {
      ghost var before := favorites;
      favorites := Without(favorites, id, kind);
      if NoDupKeys(before) {
        WithoutKeepsNoDupKeys(before, id, kind);
      }
      SaveEffect();
    }
  }
}
