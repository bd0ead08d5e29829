/** `KinopoiskService`: importing a user's Kinopoisk votes, resolving each
    rated film to a TMDb movie or TV show (through its IMDb id, or by a title
    search when that fails), and turning each resolved rating into a review
    through the review service. Remote replies come from a `Remote` value;
    logging is not modelled. */
module KinopoiskService {
  import opened Wrappers
  import opened Text
  import opened Json
  import opened Domain
  import opened Http
  import opened KinopoiskApi
  import Reviews = ReviewService

  // ---------------------------------------------------------------------
  // Import of the votes

  /** Pages `page`, `page + 1`, ... up to `totalPages`, stopping at the first
      page whose request fails or whose `items` is null or empty. */
  function LaterPages(votes: int -> VotesPage, page: int, totalPages: int): (r: seq<KinopoiskRatingDTO>)
    decreases totalPages - page
    ensures page > totalPages || votes(page).VotesFailed? ==> r == []
    ensures forall x :: x in r ==>
              exists p :: page <= p <= totalPages && votes(p).VotesReply? && votes(p).items.Some? && x in votes(p).items.value
  {
    if page > totalPages then []
    else
      match votes(page)
      case VotesFailed => []
      case VotesReply(_, items) =>
        if items.None? || |items.value| == 0 then []
        else items.value + LaterPages(votes, page + 1, totalPages)
  }

  /** What the import collects: nothing if the first page fails or has no
      readable `totalPages`; otherwise its items (an empty first page does
      not stop the import) followed by the later pages. Any failure on the
      way keeps what was collected before it. */
  function ImportedRatings(votes: int -> VotesPage): (r: seq<KinopoiskRatingDTO>)
    ensures votes(1).VotesFailed? ==> r == []
    ensures votes(1).VotesReply? && GetPropertyInt32(votes(1).totalPages).Ok? && votes(1).items.Some? ==>
              votes(1).items.value <= r
    ensures forall x :: x in r ==>
              exists p :: 1 <= p && votes(p).VotesReply? && votes(p).items.Some? && x in votes(p).items.value
  {
    match votes(1)
    case VotesFailed => []
    case VotesReply(total, items) =>
      var t := GetPropertyInt32(total);
      if t.Fail? then []
      else (if items.Some? then items.value else []) + LaterPages(votes, 2, t.value)
  }

  /** `ImportUserRatings`: always succeeds, with the ratings collected
      before the first failure or gap. */
  method ImportUserRatings(votes: int -> VotesPage) returns (r: Result<seq<KinopoiskRatingDTO>>)
    ensures r == Ok(ImportedRatings(votes))
  {
    var first := votes(1);
    if first.VotesFailed? || GetPropertyInt32(first.totalPages).Fail? {
      return Ok([]);
    }
    var totalPages := GetPropertyInt32(first.totalPages).value;
    var ratings := if first.items.Some? then first.items.value else [];
    var page := 2;
    while page <= totalPages
      invariant ratings + LaterPages(votes, page, totalPages) == ImportedRatings(votes)
      decreases totalPages - page
    {
      var reply := votes(page);
      if reply.VotesFailed? || reply.items.None? || |reply.items.value| == 0 {
        break;
      }
      ratings := ratings + reply.items.value;
      page := page + 1;
    }
    assert LaterPages(votes, page, totalPages) == [];
    assert ratings + [] == ratings;
    return Ok(ratings);
  }

  /** A page that fails or is empty ends the import: no page after it is
      ever read, whatever it would have held. */
  lemma {:induction false} ImportStopsAtGap(votes: int -> VotesPage, other: int -> VotesPage,
                                            page: int, totalPages: int, gap: int)
    requires page <= gap
    requires votes(gap).VotesFailed? || votes(gap).items.None? || votes(gap).items.value == []
    requires forall p :: page <= p <= gap ==> other(p) == votes(p)
    ensures LaterPages(votes, page, totalPages) == LaterPages(other, page, totalPages)
    decreases gap - page
  {
    if page <= totalPages && page < gap {
      ImportStopsAtGap(votes, other, page + 1, totalPages, gap);
    }
  }

  /** An empty or null first page still lets the later pages in. */
  lemma EmptyFirstPageDoesNotStop(votes: int -> VotesPage, totalPages: int)
    requires votes(1) == VotesReply(Number(totalPages), None) || votes(1) == VotesReply(Number(totalPages), Some([]))
    requires IsInt32(totalPages)
    ensures ImportedRatings(votes) == LaterPages(votes, 2, totalPages)
  {
  }

  /** Every item of every page up to the first gap is imported, in page order. */
  lemma {:induction false} PagesBeforeGapAreKept(votes: int -> VotesPage, page: int, totalPages: int, k: int)
    requires page <= k <= totalPages
    requires forall p :: page <= p <= k ==> votes(p).VotesReply? && votes(p).items.Some? && votes(p).items.value != []
    ensures forall x :: x in votes(k).items.value ==> x in LaterPages(votes, page, totalPages)
    decreases k - page
  {
    if page < k {
      PagesBeforeGapAreKept(votes, page + 1, totalPages, k);
    }
  }

  /** Pages `page..totalPages` that all hold `size` items contribute
      `size` items each. */
  lemma {:induction false} LaterPagesCount(votes: int -> VotesPage, page: int, totalPages: int, size: nat)
    requires size > 0
    requires forall p :: page <= p <= totalPages ==>
               votes(p).VotesReply? && votes(p).items.Some? && |votes(p).items.value| == size
    ensures |LaterPages(votes, page, totalPages)| == if page <= totalPages then (totalPages - page + 1) * size else 0
    decreases totalPages - page
  {
    if page <= totalPages {
      LaterPagesCount(votes, page + 1, totalPages, size);
      assert (totalPages - page + 1) * size == size + (totalPages - page) * size;
    }
  }

  /** Pagination completeness: when the first page announces `n` pages and
      every one of the `n` pages holds `size` items, `n * size` ratings are
      imported. */
  lemma FullImportCount(votes: int -> VotesPage, n: int, size: nat)
    requires 1 <= n && IsInt32(n) && size > 0
    requires votes(1).VotesReply? && votes(1).totalPages == Number(n)
    requires forall p :: 1 <= p <= n ==>
               votes(p).VotesReply? && votes(p).items.Some? && |votes(p).items.value| == size
    ensures |ImportedRatings(votes)| == n * size
  {
    LaterPagesCount(votes, 2, n, size);
    assert (n - 2 + 1) * size == n * size - size;
  }

  /** A first page that cannot be read yields an empty import, not an error. */
  lemma UnreadableFirstPageImportsNothing(votes: int -> VotesPage)
    requires votes(1).VotesFailed? || (votes(1).VotesReply? && !votes(1).totalPages.Number?)
    ensures ImportedRatings(votes) == []
  {
  }

  // ---------------------------------------------------------------------
  // Resolution of a Kinopoisk id to TMDb media

  /** The `MediaDTO` built from a TMDb hit. */
  function EntryToMedia(e: TmdbEntry, imdbId: Option<string>, kinopoiskId: int, mediaType: string): (m: MediaDTO)
    ensures m.tmdbId == e.id && m.imdbId == imdbId && m.kinopoiskId == Some(kinopoiskId)
    ensures m.mediaType == mediaType
    ensures m.title == e.title.GetOr("") && m.originalTitle == e.originalTitle.GetOr("")
    ensures e.releaseDate.Some? <==> m.releaseDate.Some?
    ensures e.releaseDate.Some? ==> m.releaseDate.value == FormatDate(e.releaseDate.value)
  {
    MediaDTO(e.id, imdbId, Some(kinopoiskId), e.title.GetOr(""), e.originalTitle.GetOr(""), mediaType,
             if e.releaseDate.Some? then Some(FormatDate(e.releaseDate.value)) else None,
             e.overview, e.posterPath, e.backdropPath, e.voteAverage, e.voteCount)
  }

  const FetchFailedPrefix := "Failed to fetch Kinopoisk movie: "
  const ErrorPrefix := "Error: "
  const NoMediaPrefix := "No media found with IMDB ID: "
  const FallbackFetchFailedPrefix := "Could not fetch data from Kinopoisk for ID: "
  const NoTitlePrefix := "No title found for Kinopoisk ID: "
  const FallbackErrorPrefix := "Fallback search error: "
  const NoMatchPrefix := "No TMDb match found for: "

  /** `GetImdbIdFromKinopoisk`, given the film-detail reply: success with the
      IMDb id when the body holds a non-empty one, success with none when it
      is missing, null or empty (so that the caller falls back), and failure
      on a throw, a non-success status or an `imdbId` that is not a string. */
  function GetImdbIdFromKinopoisk(film: FilmResponse): (r: Result<Option<string>>)
    ensures r.Ok? <==> film.FilmReply? && IsSuccessStatusCode(film.status)
                       && film.body.FilmJson? && !film.body.imdbId.NotAString?
    ensures r.Ok? && r.value.Some? <==> r.Ok? && film.body.imdbId.Str? && film.body.imdbId.s != ""
    ensures r.Ok? && r.value.Some? ==> r.value == Some(film.body.imdbId.s)
    ensures film.FilmReply? && !IsSuccessStatusCode(film.status) ==>
              r == Fail(Failure(FetchFailedPrefix + film.statusName))
    ensures film.FilmThrew? ==> r == Fail(Failure(ErrorPrefix + film.message))
  {
    match film
    case FilmThrew(m) => Fail(Failure(ErrorPrefix + m))
    case FilmReply(status, statusName, body) =>
      if !IsSuccessStatusCode(status) then Fail(Failure(FetchFailedPrefix + statusName))
      else
        match body
        case FilmUnparseable(m) => Fail(Failure(ErrorPrefix + m))
        case FilmJson(imdb, _, _, _, _) =>
          var id := TryGetPropertyString(imdb);
          if id.Fail? then Fail(Failure(ErrorPrefix + id.error.message))
          else if id.value.Some? && id.value.value != "" then Ok(id.value)
          else Ok(None)
  }

  /** `FindMediaByImdbId`, given the TMDb find reply: the first movie hit if
      there is one, else the first TV hit, else failure. */
  function FindMediaByImdbId(find: FindResponse, imdbId: string, kinopoiskId: int): (r: Result<MediaDTO>)
    ensures find.FindThrew? ==> r == Fail(Failure(ErrorPrefix + find.message))
    ensures !find.FindThrew? ==>
              (r.Fail? <==> find.FindNull? || (NoHits(find.movieResults) && NoHits(find.tvResults)))
    ensures !find.FindThrew? && r.Fail? ==> r == Fail(Failure(NoMediaPrefix + imdbId))
    ensures r.Ok? ==> r.value.imdbId == Some(imdbId) && r.value.kinopoiskId == Some(kinopoiskId)
    ensures find.FindResult? && !NoHits(find.movieResults) ==>
              r == Ok(EntryToMedia(find.movieResults.value[0], Some(imdbId), kinopoiskId, "movie"))
    ensures find.FindResult? && NoHits(find.movieResults) && !NoHits(find.tvResults) ==>
              r == Ok(EntryToMedia(find.tvResults.value[0], Some(imdbId), kinopoiskId, "tv"))
  {
    match find
    case FindThrew(m) => Fail(Failure(ErrorPrefix + m))
    case FindNull => Fail(Failure(NoMediaPrefix + imdbId))
    case FindResult(movies, shows) =>
      if !NoHits(movies) then Ok(EntryToMedia(movies.value[0], Some(imdbId), kinopoiskId, "movie"))
      else if !NoHits(shows) then Ok(EntryToMedia(shows.value[0], Some(imdbId), kinopoiskId, "tv"))
      else Fail(Failure(NoMediaPrefix + imdbId))
  }

  /** A result list that is null or empty. */
  predicate NoHits(results: Option<seq<TmdbEntry>>) {
    results.None? || |results.value| == 0
  }

  /** The properties the fallback reads, in the order it reads them; the
      first one that cannot be read ends the search with its message. */
  datatype FallbackFields = FallbackFields(nameRu: Option<string>, nameOriginal: Option<string>,
                                           year: Option<int>, filmType: Option<string>)

  /** `year` is read only when present, and must then be a 32-bit number. */
  function ReadYear(p: JsonNumber): (r: Result<Option<int>>)
    ensures p.NumberAbsent? ==> r == Ok(None)
    ensures !p.NumberAbsent? ==> (r.Ok? <==> GetPropertyInt32(p).Ok?)
    ensures r.Ok? && r.value.Some? ==> r.value.value == p.n && IsInt32(p.n)
  {
    if p.NumberAbsent? then Ok(None)
    else
      var y := GetPropertyInt32(p);
      if y.Fail? then Fail(y.error) else Ok(Some(y.value))
  }

  function ReadFallbackFields(body: FilmBody): (r: Result<FallbackFields>)
    requires body.FilmJson?
    ensures r.Ok? <==> TryGetPropertyString(body.nameRu).Ok? && TryGetPropertyString(body.nameOriginal).Ok?
                       && ReadYear(body.year).Ok? && TryGetPropertyString(body.filmType).Ok?
    ensures r.Ok? ==> r.value == FallbackFields(TryGetPropertyString(body.nameRu).value,
                                                TryGetPropertyString(body.nameOriginal).value,
                                                ReadYear(body.year).value,
                                                TryGetPropertyString(body.filmType).value)
    ensures TryGetPropertyString(body.nameRu).Fail? ==> r == Fail(TryGetPropertyString(body.nameRu).error)
    ensures TryGetPropertyString(body.nameRu).Ok? && TryGetPropertyString(body.nameOriginal).Fail? ==>
              r == Fail(TryGetPropertyString(body.nameOriginal).error)
    ensures TryGetPropertyString(body.nameRu).Ok? && TryGetPropertyString(body.nameOriginal).Ok?
            && ReadYear(body.year).Fail? ==>
              r == Fail(ReadYear(body.year).error)
    ensures TryGetPropertyString(body.nameRu).Ok? && TryGetPropertyString(body.nameOriginal).Ok?
            && ReadYear(body.year).Ok? && TryGetPropertyString(body.filmType).Fail? ==>
              r == Fail(TryGetPropertyString(body.filmType).error)
  {
    var nameRu := TryGetPropertyString(body.nameRu);
    if nameRu.Fail? then Fail(nameRu.error) else
    var nameOriginal := TryGetPropertyString(body.nameOriginal);
    if nameOriginal.Fail? then Fail(nameOriginal.error) else
    var year := ReadYear(body.year);
    if year.Fail? then Fail(year.error) else
    var filmType := TryGetPropertyString(body.filmType);
    if filmType.Fail? then Fail(filmType.error) else
    Ok(FallbackFields(nameRu.value, nameOriginal.value, year.value, filmType.value))
  }

  /** Kinopoisk's `type` names a movie when it is "film" or "movie", in any
      letter case; anything else, or no type, is searched as a TV show. */
  predicate IsMovieType(filmType: Option<string>) {
    filmType.Some? && (ToLowerAscii(filmType.value) == "film" || ToLowerAscii(filmType.value) == "movie")
  }

  /** The type is compared ignoring the case of its letters, and only the
      two movie names count as movies. */
  lemma MovieTypeIgnoresCase()
    ensures IsMovieType(Some("FILM")) && IsMovieType(Some("Movie")) && IsMovieType(Some("film"))
    ensures !IsMovieType(Some("TV_SERIES")) && !IsMovieType(Some("MINI_SERIES")) && !IsMovieType(None)
  {
    assert ToLowerAscii("FILM") == "film";
    assert ToLowerAscii("Movie") == "movie";
    assert ToLowerAscii("film") == "film";
    assert ToLowerAscii("TV_SERIES")[0] == 't';
    assert ToLowerAscii("MINI_SERIES")[0] == 'm' && ToLowerAscii("MINI_SERIES")[1] == 'i';
  }

  /** The first hit of a title search, or the no-match failure. */
  function FirstHit(search: SearchResponse, title: string, kinopoiskId: int, mediaType: string): (r: Result<MediaDTO>)
    ensures search.SearchThrew? ==> r == Fail(Failure(FallbackErrorPrefix + search.message))
    ensures !search.SearchThrew? ==> (r.Ok? <==> search.SearchResults? && !NoHits(search.results))
    ensures !search.SearchThrew? && r.Fail? ==> r == Fail(Failure(NoMatchPrefix + title))
    ensures r.Ok? ==> r.value == EntryToMedia(search.results.value[0], None, kinopoiskId, mediaType)
  {
    match search
    case SearchThrew(m) => Fail(Failure(FallbackErrorPrefix + m))
    case SearchNull => Fail(Failure(NoMatchPrefix + title))
    case SearchResults(results) =>
      if NoHits(results) then Fail(Failure(NoMatchPrefix + title))
      else Ok(EntryToMedia(results.value[0], None, kinopoiskId, mediaType))
  }

  /** `FindMediaByKinopoiskData`: reads the film again, takes the original
      title (or, when that is null, the Russian one) and the year, and
      searches TMDb's movies or TV shows by the film's type. */
  function FindMediaByKinopoiskData(remote: Remote, kinopoiskId: int): (r: Result<MediaDTO>)
    ensures remote.filmDetailAgain(kinopoiskId).FilmThrew? ==>
              r == Fail(Failure(FallbackErrorPrefix + remote.filmDetailAgain(kinopoiskId).message))
    ensures remote.filmDetailAgain(kinopoiskId).FilmReply? && !IsSuccessStatusCode(remote.filmDetailAgain(kinopoiskId).status) ==>
              r == Fail(Failure(FallbackFetchFailedPrefix + IntToString(kinopoiskId)))
    ensures r.Ok? ==> r.value.imdbId == None && r.value.kinopoiskId == Some(kinopoiskId)
    ensures r.Ok? ==> r.value.mediaType == "movie" || r.value.mediaType == "tv"
  {
    match remote.filmDetailAgain(kinopoiskId)
    case FilmThrew(m) => Fail(Failure(FallbackErrorPrefix + m))
    case FilmReply(status, _, body) =>
      if !IsSuccessStatusCode(status) then Fail(Failure(FallbackFetchFailedPrefix + IntToString(kinopoiskId)))
      else if body.FilmUnparseable? then Fail(Failure(FallbackErrorPrefix + body.message))
      else
        var fields := ReadFallbackFields(body);
        if fields.Fail? then Fail(Failure(FallbackErrorPrefix + fields.error.message))
        else
          var f := fields.value;
          var title := f.nameOriginal.OrElse(f.nameRu);
          if title.None? || title.value == "" then Fail(Failure(NoTitlePrefix + IntToString(kinopoiskId)))
          else if IsMovieType(f.filmType) then
            FirstHit(remote.searchMovie(title.value, f.year.GetOr(0)), title.value, kinopoiskId, "movie")
          else
            FirstHit(remote.searchTv(title.value, f.year.GetOr(0)), title.value, kinopoiskId, "tv")
  }

  /** `FindMediaByKinopoiskId`: a failed first read is passed on; a non-empty
      IMDb id that TMDb finds gives that media; anything else falls back to
      the title search. */
  function FindMediaByKinopoiskId(remote: Remote, kinopoiskId: int): (r: Result<MediaDTO>)
    ensures GetImdbIdFromKinopoisk(remote.filmDetail(kinopoiskId)).Fail? ==>
              r == Fail(GetImdbIdFromKinopoisk(remote.filmDetail(kinopoiskId)).error)
    ensures r.Ok? ==> r.value.kinopoiskId == Some(kinopoiskId)
    ensures r.Ok? ==> r.value.mediaType == "movie" || r.value.mediaType == "tv"
  {
    var imdb := GetImdbIdFromKinopoisk(remote.filmDetail(kinopoiskId));
    if imdb.Fail? then Fail(imdb.error)
    else
      var viaImdb := if imdb.value.Some? && imdb.value.value != "" then
                       FindMediaByImdbId(remote.find(imdb.value.value), imdb.value.value, kinopoiskId)
                     else Fail(Failure(""));
      if viaImdb.Ok? then viaImdb else FindMediaByKinopoiskData(remote, kinopoiskId)
  }

  /** When the IMDb id is found on TMDb, the result is that hit and the
      fallback's replies play no part. */
  lemma ImdbHitNeedsNoFallback(remote: Remote, kinopoiskId: int, again: int -> FilmResponse,
                               movies: (string, int) -> SearchResponse, shows: (string, int) -> SearchResponse)
    requires var imdb := GetImdbIdFromKinopoisk(remote.filmDetail(kinopoiskId));
             imdb.Ok? && imdb.value.Some? && FindMediaByImdbId(remote.find(imdb.value.value), imdb.value.value, kinopoiskId).Ok?
    ensures var imdb := GetImdbIdFromKinopoisk(remote.filmDetail(kinopoiskId)).value.value;
            && FindMediaByKinopoiskId(remote, kinopoiskId) == FindMediaByImdbId(remote.find(imdb), imdb, kinopoiskId)
            && FindMediaByKinopoiskId(remote.(filmDetailAgain := again, searchMovie := movies, searchTv := shows), kinopoiskId)
               == FindMediaByKinopoiskId(remote, kinopoiskId)
            && FindMediaByKinopoiskId(remote, kinopoiskId).value.imdbId == Some(imdb)
  {
  }

  /** Without an IMDb id TMDb's find is never asked, and the result is the
      fallback's. */
  lemma MissingImdbIdFallsBack(remote: Remote, kinopoiskId: int, find: string -> FindResponse)
    requires GetImdbIdFromKinopoisk(remote.filmDetail(kinopoiskId)) == Ok(None)
    ensures FindMediaByKinopoiskId(remote, kinopoiskId) == FindMediaByKinopoiskData(remote, kinopoiskId)
    ensures FindMediaByKinopoiskId(remote.(find := find), kinopoiskId) == FindMediaByKinopoiskId(remote, kinopoiskId)
  {
  }

  /** A non-empty IMDb id that TMDb's find does not resolve, and an empty
      one, both fall back to the title search. */
  lemma ImdbMissFallsBack(remote: Remote, kinopoiskId: int)
    requires var imdb := GetImdbIdFromKinopoisk(remote.filmDetail(kinopoiskId));
             && imdb.Ok? && imdb.value.Some?
             && (imdb.value.value == "" || FindMediaByImdbId(remote.find(imdb.value.value), imdb.value.value, kinopoiskId).Fail?)
    ensures FindMediaByKinopoiskId(remote, kinopoiskId) == FindMediaByKinopoiskData(remote, kinopoiskId)
  {
  }

  /** A failed first read is final: no other remote reply matters. */
  lemma FirstReadFailureIsFinal(remote: Remote, other: Remote, kinopoiskId: int)
    requires GetImdbIdFromKinopoisk(remote.filmDetail(kinopoiskId)).Fail?
    requires other.filmDetail(kinopoiskId) == remote.filmDetail(kinopoiskId)
    ensures FindMediaByKinopoiskId(other, kinopoiskId) == FindMediaByKinopoiskId(remote, kinopoiskId)
  {
  }

  /** The fallback's title is the original name unless that is null; an
      empty original name is not replaced by the Russian one. */
  lemma EmptyOriginalTitleIsNotReplaced(remote: Remote, kinopoiskId: int, nameRu: JsonString,
                                        year: JsonNumber, filmType: JsonString)
    requires remote.filmDetailAgain(kinopoiskId) == FilmReply(200, "OK", FilmJson(Absent, nameRu, Str(""), year, filmType))
    requires TryGetPropertyString(nameRu).Ok? && ReadYear(year).Ok? && TryGetPropertyString(filmType).Ok?
    ensures FindMediaByKinopoiskData(remote, kinopoiskId) == Fail(Failure(NoTitlePrefix + IntToString(kinopoiskId)))
  {
  }

  /** Once the film's fields are read, the searched title is `nameOriginal`,
      or `nameRu` when the original name is null or missing; without a
      non-empty title the fallback fails, and otherwise the movie search is
      used exactly for the movie types, with the film's year, or 0 when it
      has none. */
  lemma FallbackSearchChoice(remote: Remote, kinopoiskId: int)
    requires var d := remote.filmDetailAgain(kinopoiskId);
             d.FilmReply? && IsSuccessStatusCode(d.status) && d.body.FilmJson? && ReadFallbackFields(d.body).Ok?
    ensures var body := remote.filmDetailAgain(kinopoiskId).body;
            var original := TryGetPropertyString(body.nameOriginal).value;
            var title := if original.Some? then original else TryGetPropertyString(body.nameRu).value;
            var filmType := TryGetPropertyString(body.filmType).value;
            var year := ReadYear(body.year).value.GetOr(0);
            var r := FindMediaByKinopoiskData(remote, kinopoiskId);
            && (title.None? || title.value == "" ==> r == Fail(Failure(NoTitlePrefix + IntToString(kinopoiskId))))
            && (title.Some? && title.value != "" && filmType.Some? && ToLowerAscii(filmType.value) in {"film", "movie"} ==>
                  r == FirstHit(remote.searchMovie(title.value, year), title.value, kinopoiskId, "movie"))
            && (title.Some? && title.value != "" && !(filmType.Some? && ToLowerAscii(filmType.value) in {"film", "movie"}) ==>
                  r == FirstHit(remote.searchTv(title.value, year), title.value, kinopoiskId, "tv"))
  {
  }

  // ---------------------------------------------------------------------
  // Review content

  /** `Environment.NewLine` on the platform the service runs on (Linux). */
  const NewLine := "\n"

  /** The year shown next to the title: the release date up to its first
      '-', or nothing when there is no release date. */
  function ReleaseYear(media: MediaDTO): string {
    if media.releaseDate.Some? then BeforeFirst(media.releaseDate.value, '-') else ""
  }

  predicate ShowsImdbRating(rating: KinopoiskRatingDTO) {
    rating.imdbId.Some? && rating.imdbId.value != "" && rating.ratingImbd > 0.0
  }

  const Banner := "Imported from Kinopoisk"

  function TitleLine(media: MediaDTO): string {
    "**" + media.title + "** (" + ReleaseYear(media) + ")"
  }

  /** A rating and the scale it is on; `show` formats a `double` as the
      current culture does. */
  function RatingLine(caption: string, value: real, show: real -> string): string {
    caption + show(value) + "/10"
  }

  function FooterLine(kinopoiskId: int): string {
    "*Originally rated on Kinopoisk (ID: " + IntToString(kinopoiskId) + ")*"
  }

  function OverviewLines(media: MediaDTO): seq<string> {
    if media.overview.Some? && media.overview.value != "" then [media.overview.value, ""] else []
  }

  function ImdbLines(rating: KinopoiskRatingDTO, show: real -> string): seq<string> {
    if ShowsImdbRating(rating) then [RatingLine("IMDb Rating: ", rating.ratingImbd, show)] else []
  }

  /** The lines of the generated review, in order. */
  function ReviewLines(rating: KinopoiskRatingDTO, media: MediaDTO, show: real -> string): (lines: seq<string>)
    ensures |lines| == 9 + |OverviewLines(media)| + |ImdbLines(rating, show)|
    ensures lines[0] == Banner && lines[2] == TitleLine(media)
    ensures lines[|lines| - 1] == FooterLine(rating.kinopoiskId)
  {
    [Banner, "", TitleLine(media), ""]
    + OverviewLines(media)
    + [RatingLine("My Rating: ", rating.userRating, show), RatingLine("Kinopoisk Rating: ", rating.ratingKinopoisk, show)]
    + ImdbLines(rating, show)
    + ["", "---", FooterLine(rating.kinopoiskId)]
  }

  /** `GenerateReviewContent`: every line but the last ends with a newline. */
  function GenerateReviewContent(rating: KinopoiskRatingDTO, media: MediaDTO, show: real -> string): string {
    Join(NewLine, ReviewLines(rating, media, show))
  }

  /** The content opens with the import banner and closes with the
      Kinopoisk id of the rating. */
  lemma ContentFrame(rating: KinopoiskRatingDTO, media: MediaDTO, show: real -> string)
    ensures var c := GenerateReviewContent(rating, media, show);
            var head := Banner + NewLine;
            var tail := NewLine + FooterLine(rating.kinopoiskId);
            && |c| >= |head| + |tail|
            && c[..|head|] == head
            && c[|c| - |tail|..] == tail
  {
    var lines := ReviewLines(rating, media, show);
    var c := Join(NewLine, lines);
    assert c == GenerateReviewContent(rating, media, show);
    JoinStartsWith(NewLine, lines);
    JoinEndsWith(NewLine, lines);
    assert lines[0] == Banner;
    assert lines[|lines| - 1] == FooterLine(rating.kinopoiskId);
    var rest := lines[1..];
    assert c == lines[0] + NewLine + Join(NewLine, rest);
    JoinEndsWith(NewLine, rest);
    assert rest[|rest| - 1] == lines[|lines| - 1];
    assert c[..|Banner + NewLine|] == Banner + NewLine;
    assert c[|c| - |NewLine + FooterLine(rating.kinopoiskId)|..] == NewLine + FooterLine(rating.kinopoiskId);
  }

  /** The IMDb line is shown exactly when the rating has an IMDb id and a
      positive IMDb rating; it follows the user's and Kinopoisk's ratings. */
  lemma ImdbLineShownIff(rating: KinopoiskRatingDTO, media: MediaDTO, show: real -> string)
    ensures var lines := ReviewLines(rating, media, show);
            var k := 4 + |OverviewLines(media)|;
            && lines[k] == RatingLine("My Rating: ", rating.userRating, show)
            && lines[k + 1] == RatingLine("Kinopoisk Rating: ", rating.ratingKinopoisk, show)
            && (ShowsImdbRating(rating) <==> lines[k + 2] != "")
            && (ShowsImdbRating(rating) ==> lines[k + 2] == RatingLine("IMDb Rating: ", rating.ratingImbd, show))
  {
    if ShowsImdbRating(rating) {
      assert RatingLine("IMDb Rating: ", rating.ratingImbd, show)[0] == 'I';
    }
  }

  /** For media released on a date, the year shown is that date's year,
      four digits wide. */
  lemma ContentShowsReleaseYear(rating: KinopoiskRatingDTO, media: MediaDTO, show: real -> string, d: Date)
    requires media.releaseDate == Some(FormatDate(d))
    ensures var y := ReleaseYear(media);
            |y| == 4 && ParseNat(y) == d.year
            && TitleLine(media) == "**" + media.title + "** (" + y + ")"
  {
    FormatDateYear(d);
  }

  // ---------------------------------------------------------------------
  // Conversion of ratings to reviews

  /** The create request for a resolved rating. */
  function BuildRequest(user: User, rating: KinopoiskRatingDTO, media: MediaDTO, show: real -> string): (req: Reviews.CreateReviewRequest)
    ensures req.authorId == user.id && req.authorName == user.name
    ensures req.rating == rating.userRating
    ensures req.referenceId == IntToString(media.tmdbId)
    ensures req.content == GenerateReviewContent(rating, media, show)
    ensures req.referenceType == Movie <==> ToLowerAscii(media.mediaType) == "movie"
  {
    Reviews.CreateReviewRequest(user.id, user.name, GenerateReviewContent(rating, media, show), rating.userRating,
                                if ToLowerAscii(media.mediaType) == "movie" then Movie else TV,
                                IntToString(media.tmdbId))
  }

  /** The message recorded for a rating that could not be resolved. */
  function ResolutionError(rating: KinopoiskRatingDTO, e: Error): string {
    "Kinopoisk ID " + IntToString(rating.kinopoiskId) + " ("
      + rating.nameOriginal.OrElse(rating.nameRu).GetOr("") + "): " + ErrorText(e)
  }

  /** The message recorded for a resolved rating whose review was not created. */
  function CreateError(media: MediaDTO, e: Error): string {
    media.title + ": " + ErrorText(e)
  }

  /** `FindMediaByKinopoiskId` against `remote`, as a function of the id. */
  function Resolver(remote: Remote): int -> Result<MediaDTO> {
    k => FindMediaByKinopoiskId(remote, k)
  }

  /** What became of one rating: a review was created, or an error was recorded. */
  datatype ItemOutcome = Created(review: Reviews.ReviewDTO) | Failed(message: string)

  /** One rating's processing: its outcome, the store after it, the events
      it published, whether a creation (taking the fresh id) was tried, and
      whether the database context now tracks a rejected row. */
  datatype Step = Step(item: ItemOutcome, store: Reviews.StoreState, events: seq<DomainEvent>, tried: bool,
                       rejected: bool)

  /** The body of the conversion loop for one rating, from store `st`, on a
      context that tracks a rejected row when `rejected` holds. */
  function RatingStep(resolve: int -> Result<MediaDTO>, user: User, show: real -> string,
                      st: Reviews.StoreState, rejected: bool, newId: Guid, rating: KinopoiskRatingDTO): (s: Step)
    ensures !s.tried ==> s.store == st && s.events == [] && s.rejected == rejected
    ensures s.tried <==> resolve(rating.kinopoiskId).Ok?
    ensures s.tried ==> (s.rejected <==> rejected || s.item.Failed?)
    ensures rejected ==> s.item.Failed? && s.store == st && s.events == [] && s.rejected
  {
    var media := resolve(rating.kinopoiskId);
    if media.Fail? then Step(Failed(ResolutionError(rating, media.error)), st, [], false, rejected)
    else
      var o := Reviews.WithRejectedRow(Reviews.CreateOutcome(st, BuildRequest(user, rating, media.value, show), newId),
                                       st, rejected);
      var item := if o.result.Ok? then Created(o.result.value) else Failed(CreateError(media.value, o.result.error));
      Step(item, o.store, o.events, true, rejected || o.result.Fail?)
  }

  /** The conversion so far: the store, the events published, the reviews
      created and the errors recorded, and how many creations were tried
      (each creation takes the next fresh id), and whether the context
      tracks a rejected row. */
  datatype Conversion = Conversion(store: Reviews.StoreState, events: seq<DomainEvent>,
                                   reviews: seq<Reviews.ReviewDTO>, errors: seq<string>, attempts: nat,
                                   rejected: bool)

  /** Adds one rating's step to the conversion. */
  function Record(c: Conversion, s: Step): (c': Conversion)
    ensures |c'.reviews| + |c'.errors| == |c.reviews| + |c.errors| + 1
  {
    Conversion(s.store, c.events + s.events,
               if s.item.Created? then c.reviews + [s.item.review] else c.reviews,
               if s.item.Failed? then c.errors + [s.item.message] else c.errors,
               if s.tried then c.attempts + 1 else c.attempts, s.rejected)
  }

  /** The ratings processed in order, from the store `st` on a context that
      tracks a rejected row when `rejected` holds; `resolve` is the
      resolution of a Kinopoisk id (`FindMediaByKinopoiskId`). */
  function Convert(resolve: int -> Result<MediaDTO>, user: User, show: real -> string, newIds: nat -> Guid,
                   st: Reviews.StoreState, rejected: bool, ratings: seq<KinopoiskRatingDTO>): (c: Conversion)
    ensures |c.reviews| + |c.errors| == |ratings|
    ensures c.attempts <= |ratings|
    ensures rejected ==> c.rejected
  {
    if ratings == [] then Conversion(st, [], [], [], 0, rejected)
    else
      var c := Convert(resolve, user, show, newIds, st, rejected, ratings[..|ratings| - 1]);
      Record(c, RatingStep(resolve, user, show, c.store, c.rejected, newIds(c.attempts), ratings[|ratings| - 1]))
  }

  const NoneConvertedPrefix := "Failed to convert any ratings. Errors: "

  /** The final result: the created reviews if there is any, else one
      failure listing every error. */
  function BatchResult(c: Conversion): (r: Result<seq<Reviews.ReviewDTO>>)
    ensures r.Ok? <==> |c.reviews| > 0
    ensures r.Ok? ==> r.value == c.reviews
    ensures r.Fail? ==> r.error == Failure(NoneConvertedPrefix + Join("; ", c.errors))
  {
    if |c.reviews| > 0 then Ok(c.reviews) else Fail(Failure(NoneConvertedPrefix + Join("; ", c.errors)))
  }

  /** The body of the loop: resolves one rating and, when that succeeds,
      asks the review service to create its review. */
  method ConvertRating(svc: Reviews.ReviewService, remote: Remote, user: User, show: real -> string,
                       newId: Guid, rating: KinopoiskRatingDTO)
    returns (item: ItemOutcome, tried: bool)
    requires svc.Valid()
    modifies svc, svc.publisher
    ensures svc.Valid()
    ensures var s := RatingStep(Resolver(remote), user, show, old(svc.State()), old(svc.rejected), newId, rating);
            item == s.item && tried == s.tried && svc.State() == s.store && svc.rejected == s.rejected
            && svc.publisher.sent == old(svc.publisher.sent) + s.events
  {
    var media := FindMediaByKinopoiskId(remote, rating.kinopoiskId);
    assert Resolver(remote)(rating.kinopoiskId) == media;
    if media.Fail? {
      return Failed(ResolutionError(rating, media.error)), false;
    }
    var created := svc.CreateReviewAsync(BuildRequest(user, rating, media.value, show), newId);
    tried := true;
    if created.Ok? {
      item := Created(created.value);
    } else {
      item := Failed(CreateError(media.value, created.error));
    }
  }

  /** One more rating extends the conversion of the ratings before it by that rating's step. */
  lemma ConvertPrefix(resolve: int -> Result<MediaDTO>, user: User, show: real -> string, newIds: nat -> Guid,
                      st: Reviews.StoreState, rejected: bool, ratings: seq<KinopoiskRatingDTO>, i: nat)
    requires i < |ratings|
    ensures var c := Convert(resolve, user, show, newIds, st, rejected, ratings[..i]);
            Convert(resolve, user, show, newIds, st, rejected, ratings[..i + 1])
              == Record(c, RatingStep(resolve, user, show, c.store, c.rejected, newIds(c.attempts), ratings[i]))
  {
    assert ratings[..i + 1][..i] == ratings[..i] && ratings[..i + 1][i] == ratings[i];
  }

  /** One turn of the conversion loop: `ConvertRating`, then the created
      review or the error appended to its list, and the fresh-id counter
      advanced when a creation was tried. */
  method ConvertNext(svc: Reviews.ReviewService, remote: Remote, user: User, show: real -> string,
                     newIds: nat -> Guid, rating: KinopoiskRatingDTO, ghost c: Conversion,
                     reviews: seq<Reviews.ReviewDTO>, errors: seq<string>, attempts: nat)
    returns (reviews': seq<Reviews.ReviewDTO>, errors': seq<string>, attempts': nat)
    requires svc.Valid()
    requires svc.State() == c.store && svc.rejected == c.rejected
    requires reviews == c.reviews && errors == c.errors && attempts == c.attempts
    modifies svc, svc.publisher
    ensures svc.Valid()
    ensures var s := RatingStep(Resolver(remote), user, show, c.store, c.rejected, newIds(c.attempts), rating);
            var c' := Record(c, s);
            && svc.State() == c'.store && svc.rejected == c'.rejected
            && svc.publisher.sent == old(svc.publisher.sent) + s.events
            && reviews' == c'.reviews && errors' == c'.errors && attempts' == c'.attempts
  {
    var item, tried := ConvertRating(svc, remote, user, show, newIds(attempts), rating);
    reviews', errors', attempts' := reviews, errors, attempts;
    if item.Created? {
      reviews' := reviews + [item.review];
    } else {
      errors' := errors + [item.message];
    }
    if tried {
      attempts' := attempts + 1;
    }
  }

  lemma AppendAssociative(a: seq<DomainEvent>, b: seq<DomainEvent>, c: seq<DomainEvent>)
    ensures (a + b) + c == a + (b + c)
  {
  }

  /** `ConvertRatingsToReviews`: one resolution and at most one creation per
      rating, in order; the service's store and publisher change exactly as
      `Convert` says. */
  method ConvertRatingsToReviews(svc: Reviews.ReviewService, remote: Remote, ratings: seq<KinopoiskRatingDTO>,
                                 user: User, show: real -> string, newIds: nat -> Guid)
    returns (r: Result<seq<Reviews.ReviewDTO>>)
    requires svc.Valid()
    modifies svc, svc.publisher
    ensures svc.Valid()
    ensures var c := Convert(Resolver(remote), user, show, newIds, old(svc.State()), old(svc.rejected), ratings);
            && r == BatchResult(c) && svc.State() == c.store && svc.rejected == c.rejected
            && svc.publisher.sent == old(svc.publisher.sent) + c.events
  {
    var reviews: seq<Reviews.ReviewDTO> := [];
    var errors: seq<string> := [];
    var attempts: nat := 0;
    ghost var sent0 := svc.publisher.sent;
    ghost var st0 := svc.State();
    ghost var rejected0 := svc.rejected;
    ghost var c := Convert(Resolver(remote), user, show, newIds, st0, rejected0, []);
    for i := 0 to |ratings|
      invariant svc.Valid()
      invariant c == Convert(Resolver(remote), user, show, newIds, st0, rejected0, ratings[..i])
      invariant svc.State() == c.store && svc.rejected == c.rejected && svc.publisher.sent == sent0 + c.events
      invariant reviews == c.reviews && errors == c.errors && attempts == c.attempts
    {
      ConvertPrefix(Resolver(remote), user, show, newIds, st0, rejected0, ratings, i);
      ghost var s := RatingStep(Resolver(remote), user, show, c.store, c.rejected, newIds(c.attempts), ratings[i]);
      reviews, errors, attempts := ConvertNext(svc, remote, user, show, newIds, ratings[i], c, reviews, errors, attempts);
      AppendAssociative(sent0, c.events, s.events);
      c := Record(c, s);
    }
    assert ratings[..|ratings|] == ratings;
    r := if |reviews| > 0 then Ok(reviews) else Fail(Failure(NoneConvertedPrefix + Join("; ", errors)));
  }

  /** Each rating ends either as a created review or as an error, and each
      created review keeps the store well formed. */
  lemma {:induction false} ConvertPreservesWellFormed(resolve: int -> Result<MediaDTO>, user: User, show: real -> string,
                                                      newIds: nat -> Guid, st: Reviews.StoreState, rejected: bool,
                                                      ratings: seq<KinopoiskRatingDTO>)
    requires Reviews.WellFormed(st)
    ensures Reviews.WellFormed(Convert(resolve, user, show, newIds, st, rejected, ratings).store)
  {
    if ratings != [] {
      var pre := ratings[..|ratings| - 1];
      ConvertPreservesWellFormed(resolve, user, show, newIds, st, rejected, pre);
      var c := Convert(resolve, user, show, newIds, st, rejected, pre);
      var rating := ratings[|ratings| - 1];
      var media := resolve(rating.kinopoiskId);
      if media.Ok? {
        Reviews.CreatePreservesWellFormed(c.store, BuildRequest(user, rating, media.value, show), newIds(c.attempts));
      }
    }
  }

  /** Every created review carries the user as author and the stored
      default reference type, whatever kind of media was resolved. */
  lemma {:induction false} CreatedReviewsAreTheUsers(resolve: int -> Result<MediaDTO>, user: User, show: real -> string,
                                                     newIds: nat -> Guid, st: Reviews.StoreState, rejected: bool,
                                                     ratings: seq<KinopoiskRatingDTO>)
    ensures forall d :: d in Convert(resolve, user, show, newIds, st, rejected, ratings).reviews ==>
              d.authorId == user.id && d.referenceType == DefaultReferenceType
  {
    if ratings != [] {
      CreatedReviewsAreTheUsers(resolve, user, show, newIds, st, rejected, ratings[..|ratings| - 1]);
    }
  }

  /** A resolved rating asks for the reference type of its media: a movie
      for TMDb movies and a TV show for TMDb TV shows. */
  lemma RequestedTypeFollowsMedia(remote: Remote, user: User, rating: KinopoiskRatingDTO, show: real -> string)
    requires FindMediaByKinopoiskId(remote, rating.kinopoiskId).Ok?
    ensures var media := FindMediaByKinopoiskId(remote, rating.kinopoiskId).value;
            BuildRequest(user, rating, media, show).referenceType == (if media.mediaType == "movie" then Movie else TV)
  {
    var media := FindMediaByKinopoiskId(remote, rating.kinopoiskId).value;
    if media.mediaType == "tv" {
      assert ToLowerAscii(media.mediaType)[0] == 't';
    }
  }

  /** A single rating that cannot be resolved gives the batch failure whose
      message names that rating and its error. */
  lemma UnresolvedRatingFails(remote: Remote, user: User, show: real -> string, newIds: nat -> Guid,
                              st: Reviews.StoreState, rejected: bool, rating: KinopoiskRatingDTO)
    requires FindMediaByKinopoiskId(remote, rating.kinopoiskId).Fail?
    ensures var c := Convert(Resolver(remote), user, show, newIds, st, rejected, [rating]);
            && c.store == st && c.events == []
            && BatchResult(c) == Fail(Failure(NoneConvertedPrefix
                 + ResolutionError(rating, FindMediaByKinopoiskId(remote, rating.kinopoiskId).error)))
  {
    assert [rating][..0] == [];
  }

  /** A single resolved rating whose creation succeeds, on a context with no
      rejected row, gives one review with the user's rating, the TMDb id as
      reference and the generated content. */
  lemma ResolvedRatingIsCreated(remote: Remote, user: User, show: real -> string, newIds: nat -> Guid,
                                st: Reviews.StoreState, rating: KinopoiskRatingDTO)
    requires FindMediaByKinopoiskId(remote, rating.kinopoiskId).Ok?
    requires var media := FindMediaByKinopoiskId(remote, rating.kinopoiskId).value;
             Reviews.CreateOutcome(st, BuildRequest(user, rating, media, show), newIds(0)).result.Ok?
    ensures var media := FindMediaByKinopoiskId(remote, rating.kinopoiskId).value;
            var r := BatchResult(Convert(Resolver(remote), user, show, newIds, st, false, [rating]));
            && r.Ok? && |r.value| == 1
            && r.value[0].rating == rating.userRating
            && r.value[0].referenceId == IntToString(media.tmdbId)
            && r.value[0].content == GenerateReviewContent(rating, media, show)
  {
    assert [rating][..0] == [];
  }

  /** Once the context tracks a rejected row, no later rating is created:
      every resolved rating fails at its save, the store and the published
      events stay as they were, and the flag stays set. */
  lemma {:induction false} RejectedRowFailsTheRest(resolve: int -> Result<MediaDTO>, user: User, show: real -> string,
                                                   newIds: nat -> Guid, st: Reviews.StoreState,
                                                   ratings: seq<KinopoiskRatingDTO>)
    ensures var c := Convert(resolve, user, show, newIds, st, true, ratings);
            c.reviews == [] && c.store == st && c.events == [] && c.rejected
  {
    if ratings != [] {
      RejectedRowFailsTheRest(resolve, user, show, newIds, st, ratings[..|ratings| - 1]);
    }
  }

  /** A save that fails spoils the rest of the batch: when the first rating
      resolves but its review cannot be created (for instance because the
      user already reviewed that title, as on a repeated import), no review
      at all is created and the whole call fails, however many of the
      following ratings could have been created on their own. */
  lemma {:induction false} FirstSaveFailureFailsBatch(resolve: int -> Result<MediaDTO>, user: User, show: real -> string,
                                                      newIds: nat -> Guid, st: Reviews.StoreState,
                                                      ratings: seq<KinopoiskRatingDTO>)
    requires |ratings| > 0 && resolve(ratings[0].kinopoiskId).Ok?
    requires Reviews.CreateOutcome(st, BuildRequest(user, ratings[0], resolve(ratings[0].kinopoiskId).value, show),
                                   newIds(0)).result.Fail?
    ensures var c := Convert(resolve, user, show, newIds, st, false, ratings);
            c.reviews == [] && c.store == st && c.events == [] && c.rejected
    ensures BatchResult(Convert(resolve, user, show, newIds, st, false, ratings)).Fail?
  {
    if |ratings| == 1 {
      assert ratings[..0] == [];
    } else {
      var pre := ratings[..|ratings| - 1];
      assert pre[0] == ratings[0];
      FirstSaveFailureFailsBatch(resolve, user, show, newIds, st, pre);
    }
  }

  /** The conversion as evidently intended: a failed save leaves nothing
      behind in the context, so every rating is created or refused on its
      own, exactly as if it were the only one. */
  function ConvertDetaching(resolve: int -> Result<MediaDTO>, user: User, show: real -> string, newIds: nat -> Guid,
                            st: Reviews.StoreState, ratings: seq<KinopoiskRatingDTO>): (c: Conversion)
    ensures |c.reviews| + |c.errors| == |ratings|
    ensures !c.rejected
  {
    if ratings == [] then Conversion(st, [], [], [], 0, false)
    else
      var c := ConvertDetaching(resolve, user, show, newIds, st, ratings[..|ratings| - 1]);
      var s := RatingStep(resolve, user, show, c.store, false, newIds(c.attempts), ratings[|ratings| - 1]);
      Record(c, s.(rejected := false))
  }

  /** With the rejected row dropped, one failed save costs only its own
      rating: a first rating that cannot be saved, followed by one that can,
      gives a batch that succeeds with the second rating's review, where the
      code as written fails the whole batch (`FirstSaveFailureFailsBatch`). */
  lemma DetachingKeepsLaterReviews(resolve: int -> Result<MediaDTO>, user: User, show: real -> string,
                                   newIds: nat -> Guid, st: Reviews.StoreState,
                                   first: KinopoiskRatingDTO, second: KinopoiskRatingDTO)
    requires resolve(first.kinopoiskId).Ok? && resolve(second.kinopoiskId).Ok?
    requires Reviews.CreateOutcome(st, BuildRequest(user, first, resolve(first.kinopoiskId).value, show),
                                   newIds(0)).result.Fail?
    requires Reviews.CreateOutcome(st, BuildRequest(user, second, resolve(second.kinopoiskId).value, show),
                                   newIds(1)).result.Ok?
    ensures var o := Reviews.CreateOutcome(st, BuildRequest(user, second, resolve(second.kinopoiskId).value, show),
                                           newIds(1));
            BatchResult(ConvertDetaching(resolve, user, show, newIds, st, [first, second])) == Ok([o.result.value])
  {
    assert [first, second][..1] == [first] && [first][..0] == [];
    var s1 := RatingStep(resolve, user, show, st, false, newIds(0), first);
    assert s1.item.Failed? && s1.store == st && s1.tried;
    var c0 := Conversion(st, [], [], [], 0, false);
    assert ConvertDetaching(resolve, user, show, newIds, st, []) == c0;
    var c1 := Record(c0, s1.(rejected := false));
    assert ConvertDetaching(resolve, user, show, newIds, st, [first]) == c1;
    var s2 := RatingStep(resolve, user, show, st, false, newIds(1), second);
    var o := Reviews.CreateOutcome(st, BuildRequest(user, second, resolve(second.kinopoiskId).value, show), newIds(1));
    assert s2.item == Created(o.result.value);
    var c2 := Record(c1, s2.(rejected := false));
    assert c2.reviews == [o.result.value];
    assert ConvertDetaching(resolve, user, show, newIds, st, [first, second]) == c2;
  }

  /** Where no save fails, the code as written and the corrected conversion
      agree on everything but the flag. */
  lemma {:induction false} DetachingAgreesWithoutRejection(resolve: int -> Result<MediaDTO>, user: User,
                                                           show: real -> string, newIds: nat -> Guid,
                                                           st: Reviews.StoreState, ratings: seq<KinopoiskRatingDTO>)
    requires !Convert(resolve, user, show, newIds, st, false, ratings).rejected
    ensures Convert(resolve, user, show, newIds, st, false, ratings)
              == ConvertDetaching(resolve, user, show, newIds, st, ratings)
  {
    if ratings != [] {
      DetachingAgreesWithoutRejection(resolve, user, show, newIds, st, ratings[..|ratings| - 1]);
    }
  }
}
