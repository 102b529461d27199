/** A title record as the catalog returns it. Movies carry `title` and
    `release_date`, series carry `name` and `first_air_date`; `media_type`
    is present on some listings only. Every property may be missing. */
module Tmdb {
  import opened JsValues

  datatype Media = Media(
    id: int,
    media_type: Option<string>,
    title: Option<string>,
    name: Option<string>,
    poster_path: Option<string>,
    backdrop_path: Option<string>,
    vote_average: Option<real>,
    release_date: Option<string>,
    first_air_date: Option<string>,
    overview: Option<string>
  )
}
