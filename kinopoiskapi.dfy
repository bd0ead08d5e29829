/** The data the Kinopoisk import works on: the rating record of the
    Kinopoisk API, the media record resolved from TMDb, and the replies of
    the remote endpoints the import and the resolver call. Each endpoint is a
    field of `Remote`, a total function from its arguments to its reply. */
module KinopoiskApi {
  import opened Wrappers
  import opened Text
  import opened Json

  /** One entry of a user's Kinopoisk votes. The string properties default to
      empty but read as null when the JSON holds `null`; the ratings are
      `double` in the source. */
  datatype KinopoiskRatingDTO = KinopoiskRatingDTO(
    kinopoiskId: int, imdbId: Option<string>, nameRu: Option<string>, nameEn: Option<string>,
    nameOriginal: Option<string>, ratingKinopoisk: real, ratingImbd: real, year: int,
    filmType: Option<string>, posterUrl: Option<string>, posterUrlPreview: Option<string>,
    userRating: real)

  /** A resolved movie or TV show. */
  datatype MediaDTO = MediaDTO(
    tmdbId: int, imdbId: Option<string>, kinopoiskId: Option<int>, title: string,
    originalTitle: string, mediaType: string, releaseDate: Option<string>,
    overview: Option<string>, posterPath: Option<string>, backdropPath: Option<string>,
    voteAverage: real, voteCount: int)

  /** A calendar date as `DateTime` holds it (the time of day plays no part). */
  datatype DateValue = DateValue(year: int, month: int, day: int)

  type Date = d: DateValue | 1 <= d.year <= 9999 && 1 <= d.month <= 12 && 1 <= d.day <= 31
    witness DateValue(1, 1, 1)

  /** Four-digit year, two-digit month and day, separated by '-'. */
  function DateText(year: nat, month: nat, day: nat): (s: string)
    requires year < 10000 && month < 100 && day < 100
    ensures |s| == 10
  {
    ZeroPadded(year, 4) + ['-'] + (ZeroPadded(month, 2) + ['-'] + ZeroPadded(day, 2))
  }

  lemma DashesAt(y: string, m: string, d: string)
    requires |y| == 4 && |m| == 2 && |d| == 2
    ensures (y + ['-'] + (m + ['-'] + d))[4] == '-'
    ensures (y + ['-'] + (m + ['-'] + d))[7] == '-'
  {
  }

  lemma DateTextShape(year: nat, month: nat, day: nat)
    requires year < 10000 && month < 100 && day < 100
    ensures DateText(year, month, day)[4] == '-' && DateText(year, month, day)[7] == '-'
  {
    DashesAt(ZeroPadded(year, 4), ZeroPadded(month, 2), ZeroPadded(day, 2));
  }

  /** `ToString("yyyy-MM-dd")` with the Gregorian calendar. */
  function FormatDate(d: Date): (s: string)
    ensures |s| == 10 && s[4] == '-' && s[7] == '-'
  {
    DateTextShape(d.year, d.month, d.day);
    DateText(d.year, d.month, d.day)
  }

  /** The part of a formatted date before the first '-' is the year,
      zero-padded to four digits, and it reads back as the year. */
  lemma DateTextYear(year: nat, month: nat, day: nat)
    requires year < 10000 && month < 100 && day < 100
    ensures |BeforeFirst(DateText(year, month, day), '-')| == 4
    ensures ParseNat(BeforeFirst(DateText(year, month, day), '-')) == year
  {
    var y := ZeroPadded(year, 4);
    ZeroPaddedRoundTrip(year, 4);
    assert '-' !in y by {
      forall i | 0 <= i < |y| ensures y[i] != '-' {
        assert IsDigit(y[i]);
      }
    }
    BeforeFirstStops(y, '-', ZeroPadded(month, 2) + ['-'] + ZeroPadded(day, 2));
  }

  lemma FormatDateYear(d: Date)
    ensures |BeforeFirst(FormatDate(d), '-')| == 4
    ensures ParseNat(BeforeFirst(FormatDate(d), '-')) == d.year
  {
    DateTextYear(d.year, d.month, d.day);
  }

  /** A TMDb search or find hit; a TV show's name, original name and first air
      date fill the title, original title and release date. */
  datatype TmdbEntry = TmdbEntry(
    id: int, title: Option<string>, originalTitle: Option<string>, releaseDate: Option<Date>,
    overview: Option<string>, posterPath: Option<string>, backdropPath: Option<string>,
    voteAverage: real, voteCount: int)

  /** The Kinopoisk film-detail body, with the properties the core reads. */
  datatype FilmBody =
    | FilmUnparseable(message: string)
    | FilmJson(imdbId: JsonString, nameRu: JsonString, nameOriginal: JsonString,
               year: JsonNumber, filmType: JsonString)

  /** `GET /api/v2.2/films/{id}`: the request (or reading its body) threw, or
      a reply with its status code and that code's name. */
  datatype FilmResponse = FilmThrew(message: string) | FilmReply(status: int, statusName: string, body: FilmBody)

  /** TMDb's find-by-external-id: threw, returned null, or two result lists
      (each possibly null). */
  datatype FindResponse =
    | FindThrew(message: string)
    | FindNull
    | FindResult(movieResults: Option<seq<TmdbEntry>>, tvResults: Option<seq<TmdbEntry>>)

  /** A TMDb title search: threw, returned null, or a result list (possibly null). */
  datatype SearchResponse = SearchThrew(message: string) | SearchNull | SearchResults(results: Option<seq<TmdbEntry>>)

  /** One page of `GET /api/v1/kp_users/{id}/votes`: anything that throws on
      the way (the request, the JSON parse, a missing `items`, an `items`
      that does not deserialise) is `VotesFailed`; otherwise the `totalPages`
      property and the deserialised `items` (null for JSON `null`). */
  datatype VotesPage = VotesFailed | VotesReply(totalPages: JsonNumber, items: Option<seq<KinopoiskRatingDTO>>)

  /** The remote endpoints. The film-detail endpoint is read twice per
      resolution (for the IMDb id and again for the fallback search), so it
      appears twice. `votes` answers page numbers for the one user being
      imported. */
  datatype Remote = Remote(
    votes: int -> VotesPage,
    filmDetail: int -> FilmResponse,
    filmDetailAgain: int -> FilmResponse,
    find: string -> FindResponse,
    searchMovie: (string, int) -> SearchResponse,
    searchTv: (string, int) -> SearchResponse)

  /** How an error reads when interpolated into a message: FluentResults'
      `Error.ToString()`, which names the reason type and adds the message
      only when it is not empty (the errors of the core carry no metadata
      and no nested reasons). */
  function ErrorText(e: Error): (t: string)
    ensures |t| >= 5 && t[..5] == "Error" && |t| > |e.message|
    ensures e.message != "" ==> t[|t| - |e.message| - 1..] == e.message + "'"
  {
    if e.message == "" then "Error" else "Error with Message='" + e.message + "'"
  }
}
