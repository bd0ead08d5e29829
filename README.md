# media-tracker core in Dafny

This project models the server-side core of media-tracker, an ASP.NET
application. Users import their Kinopoisk film ratings, and the application
turns each rating into a review of the matching TMDb movie or TV show.
Reviews are stored, liked and disliked, and every change publishes domain
events.

The model covers these parts:

- **Kinopoisk import** (`KinopoiskService`).
  - `ImportUserRatings` is the page loop over the votes endpoint.
  - `FindMediaByKinopoiskId` is the resolver. It reads the IMDb id, looks it up through the TMDb find API, and otherwise searches by title.
  - `GenerateReviewContent` builds the Markdown text of a review.
  - `ConvertRatingsToReviews` is the batch loop that creates one review per rating.
  - Every remote endpoint is a parameter, the `Remote` value: the votes page, the film detail (read twice), the TMDb find, the movie search and the TV search. Each one returns a reply, a `null` body or a thrown exception.
- **The review store** (`ReviewService`).
  - The database is the value `StoreState`:
    - review rows by id;
    - the rows' insertion order;
    - the `Likes` table and the `Dislikes` table, as sets of `(reviewId, userId)` keys.
  - `WellFormed` states what the schema enforces: the unique index on `(AuthorId, ReferenceId, ReferenceType)`, the vote foreign keys, and row ids.
  - The class `ReviewService.ReviewService` holds that state in fields. Its methods change the state in place and publish events through an `EventPublisher`.
  - Each method is proved against an `...Outcome` function. The lemmas state what that function does.
- **The aggregate** (`Domain.Review`). It is a class with the entity id, the review fields and the aggregate root's event list. `DomainService.PublishEventAsync` drains that list into the publisher.
- **Resilience policies** (`ResiliencePolicies`): which outcomes the retry and breaker policies handle, their constants, the exponential back-off, the order of the combined wrap, and how many attempts a retry run makes.
- **The two middlewares and the context extensions**:
  - `DomainUserMiddleware` reads the domain user from the claims. `HttpContextExtensions` reads it back.
  - `CookieTokenMiddleware` moves the token cookies into request headers. It refreshes an expired access token through the token endpoint.
  - Both middlewares work on one `Http.HttpContext` class.

Modelling choices:

- Identifiers (`Guid`) are `nat`. `Guid.NewGuid()` becomes an id parameter (`newId`, or `newIds` for a batch).
- Ratings (`double`) are `real`. How .NET prints a `double` is the parameter `show`.
- Integers are unbounded. The paging offset `(pageNumber - 1) * pageSize` is 32-bit arithmetic and is written out with `Wrap32`. The import's page counter is not wrapped (see "Left out").
- JSON property reads (`GetProperty`, `TryGetProperty`, `GetString`, `GetInt32`) are modelled by the JSON shapes they can meet: absent, `null`, a string or number, or something else. Each error path is the exception it raises.
- Paging:
  - a negative `Skip` is refused as PostgreSQL refuses a negative `OFFSET` (SQLSTATE 2201X);
  - a negative `Take` is refused as PostgreSQL refuses a negative `LIMIT` (SQLSTATE 2201W);
  - the queries have no `OrderBy`, so which rows fall on a page is up to the database. The model reads the rows in insertion order. `PageHoldsMatchingRows` states what holds in any order.
- A save that breaks the unique index or a key leaves the store unchanged. The call then fails with the database exception's message.
- The database context is scoped to one request (`AddDbContext` and `AddScoped` in `Program.cs`). A failed `SaveChangesAsync` leaves the rejected row tracked as added. Every later save in the same request sends it again and fails the same way. The service's `rejected` field records this, and `WithRejectedRow` applies it to each operation.

Behaviour of the code worth noting:

- The Kinopoisk and TMDb clients are created with the default `AddHttpClient()` and are not wrapped in the resilience policies. The policies are modelled on their own.
- The retry policy does not handle the timeout policy's `TimeoutRejectedException` or the breaker's `BrokenCircuitException`. It handles only `HttpRequestException`, `TimeoutException` and six status codes (`RetryHandledIsBreakerHandled`).
- The fallback search title is `nameOriginal ?? nameRu`. An empty original title is therefore not replaced by the localized one, and the lookup fails (`EmptyOriginalTitleIsNotReplaced`).
- `CreateReviewAsync` never passes the requested `ReferenceType` to `Review.Create`, so every stored review has the entity's default `ReferenceType` (`CreateIgnoresRequestedType`). The `ReferenceType` enum is not part of this model. The model assumes that its first member, and so its default, is `Movie`.
- `Review.UpdateContent` records a `ReviewContentUpdated` event but never assigns `Content`.
- `UpdateReviewAsync` changes only a mapped copy of the row, so the store is unchanged (`UpdateSemantics`).
- The unit tests in `Src/Tests/UnitTests/ReviewServiceTests.cs` target another version of the service (soft delete, an id on the DTO). The model follows `ReviewService.cs`.

## Model

| member | source | states |
|---|---|---|
| `KinopoiskService.ImportUserRatings` | Src/Application/Service/KinopoiskService.cs:21-65 | The page loop returns `Ok` with exactly the ratings `ImportedRatings` collects. Page 1 is read and its items are kept even when empty. Pages 2..totalPages follow until the first failed, missing or empty page. Any exception keeps what was collected so far. |
| `KinopoiskService.LaterPages` | Src/Application/Service/KinopoiskService.cs:43-57 | Defined as pages `page`..`totalPages` up to the first failed, missing or empty page. Nothing is collected past `totalPages` or from a failed page, and every rating comes from the items of some page in range. Further properties are in `ImportStopsAtGap`, `PagesBeforeGapAreKept` and `LaterPagesCount`. |
| `KinopoiskService.ImportedRatings` | Src/Application/Service/KinopoiskService.cs:27-64 | Defined as page 1 followed by `LaterPages` from page 2. A failed first page imports nothing. A readable first page's items come first, and every imported rating comes from some page's items. Further properties are in `EmptyFirstPageDoesNotStop`, `FullImportCount` and `UnreadableFirstPageImportsNothing`. |
| `KinopoiskService.ImportStopsAtGap` | Src/Application/Service/KinopoiskService.cs:43-57 | Once a page is unreadable or empty, no later page affects the import. Two vote sources that agree up to that page import the same ratings. |
| `KinopoiskService.EmptyFirstPageDoesNotStop` | Src/Application/Service/KinopoiskService.cs:33-43 | An empty or missing first page does not end the import. The result is whatever pages 2..totalPages yield. |
| `KinopoiskService.PagesBeforeGapAreKept` | Src/Application/Service/KinopoiskService.cs:43-57 | Every rating on a page that is reached before any gap appears in the import. |
| `KinopoiskService.LaterPagesCount` | Src/Application/Service/KinopoiskService.cs:43-57 | When every page from `page` to `totalPages` holds `size` items, the loop collects exactly `(totalPages - page + 1) * size` ratings. |
| `KinopoiskService.FullImportCount` | Src/Application/Service/KinopoiskService.cs:29-57 | When all `n` pages are full with `size` items each, the import holds `n * size` ratings, so nothing is lost or duplicated. |
| `KinopoiskService.UnreadableFirstPageImportsNothing` | Src/Application/Service/KinopoiskService.cs:27-64 | If the first page fails or has no integer `totalPages`, the exception is swallowed and the import is an empty success. |
| `KinopoiskService.EntryToMedia` | Src/Application/Service/KinopoiskService.cs:303-317 | A TMDb hit becomes a `MediaDTO` carrying the TMDb id, the given IMDb and Kinopoisk ids and the media type. A missing title becomes `""`. The release date is present exactly when the hit has one, formatted `yyyy-MM-dd`. |
| `KinopoiskService.GetImdbIdFromKinopoisk` | Src/Application/Service/KinopoiskService.cs:238-280 | It succeeds exactly on a success status with a readable body. It yields `Some(id)` exactly when `imdbId` is a non-empty string. A failure status gives "Failed to fetch Kinopoisk movie: <status>", and an exception gives "Error: <message>". |
| `KinopoiskService.FindMediaByImdbId` | Src/Application/Service/KinopoiskService.cs:282-351 | It takes the first movie hit first and the first TV hit otherwise. With a `null` result or no hits it fails with "No media found with IMDB ID: <id>", and an exception gives "Error: <message>". A success carries the IMDb and Kinopoisk ids. |
| `KinopoiskService.ReadYear` | Src/Application/Service/KinopoiskService.cs:378 | An absent `year` is `null`. A present one must be an `Int32` number, otherwise the read throws. |
| `KinopoiskService.ReadFallbackFields` | Src/Application/Service/KinopoiskService.cs:376-379 | The four optional fields are read in the order `nameRu`, `nameOriginal`, `year`, `type`. The read fails exactly when one of them has the wrong JSON kind. The error is that of the first failing read, for each of the four. |
| `KinopoiskService.IsMovieType` | Src/Application/Service/KinopoiskService.cs:391 | Defined as a type that is "film" or "movie" after lower-casing. Examples are proved in `MovieTypeIgnoresCase`. |
| `KinopoiskService.MovieTypeIgnoresCase` | Src/Application/Service/KinopoiskService.cs:391 | "FILM", "Movie" and "film" are movie types. "TV_SERIES", "MINI_SERIES" and a missing type are not. |
| `KinopoiskService.FirstHit` | Src/Application/Service/KinopoiskService.cs:396-449 | A search succeeds exactly when it returns at least one result, and then yields the first one without an IMDb id. No results gives "No TMDb match found for: <title>". An exception gives "Fallback search error: <message>". |
| `KinopoiskService.FindMediaByKinopoiskData` | Src/Application/Service/KinopoiskService.cs:353-456 | A failure status gives "Could not fetch data from Kinopoisk for ID: <id>", and an exception gives "Fallback search error: <message>". Any success has no IMDb id, carries the Kinopoisk id and is a movie or a TV show. |
| `KinopoiskService.FindMediaByKinopoiskId` | Src/Application/Service/KinopoiskService.cs:73-115 | A failed IMDb-id read is returned unchanged. Any success carries the Kinopoisk id and is a movie or a TV show. |
| `KinopoiskService.ImdbHitNeedsNoFallback` | Src/Application/Service/KinopoiskService.cs:88-99 | When the IMDb id exists and the find API hits, that hit is the answer. The fallback endpoints are never consulted. |
| `KinopoiskService.MissingImdbIdFallsBack` | Src/Application/Service/KinopoiskService.cs:88-108 | Without an IMDb id the answer is the title-search fallback, and the find API is never consulted. |
| `KinopoiskService.ImdbMissFallsBack` | Src/Application/Service/KinopoiskService.cs:88-108 | An empty IMDb id, or a non-empty one that the find API does not resolve, gives the title-search fallback's answer. |
| `KinopoiskService.FirstReadFailureIsFinal` | Src/Application/Service/KinopoiskService.cs:79-86 | If the first film-detail read fails, nothing else matters: any remote with the same first read gives the same result. |
| `KinopoiskService.EmptyOriginalTitleIsNotReplaced` | Src/Application/Service/KinopoiskService.cs:381-386 | An empty `nameOriginal` is kept by `??`, so the fallback fails with "No title found for Kinopoisk ID: <id>", even when `nameRu` is set. |
| `KinopoiskService.FallbackSearchChoice` | Src/Application/Service/KinopoiskService.cs:381-423 | For any readable film reply, the title is `nameOriginal`, or `nameRu` when the original name is null or absent. Without a non-empty title the fallback fails with "No title found for Kinopoisk ID: <id>". Otherwise a type of "film" or "movie", in any case, searches movies and anything else searches TV shows, with that title and `year ?? 0`. |
| `KinopoiskService.ReviewLines` | Src/Application/Service/KinopoiskService.cs:208-235 | The review text has 9 lines plus the overview lines and the optional IMDb line. The banner comes first, the title line third and the Kinopoisk footer last. |
| `KinopoiskService.ContentFrame` | Src/Application/Service/KinopoiskService.cs:208-235 | The generated content starts with "Imported from Kinopoisk" and a newline. It ends with a newline and "*Originally rated on Kinopoisk (ID: <id>)*", with no trailing newline. |
| `KinopoiskService.GenerateReviewContent` | Src/Application/Service/KinopoiskService.cs:208-236 | Defined as the lines of `ReviewLines` joined by newlines. Its properties are proved in `ContentFrame`, `ImdbLineShownIff` and `ContentShowsReleaseYear`. |
| `KinopoiskService.ImdbLineShownIff` | Src/Application/Service/KinopoiskService.cs:223-229 | The user and Kinopoisk rating lines always follow the overview. The IMDb line appears if and only if the rating has a non-empty IMDb id and a positive IMDb rating. |
| `KinopoiskService.ContentShowsReleaseYear` | Src/Application/Service/KinopoiskService.cs:214 | For a date formatted by `EntryToMedia`, the title line shows "**title** (yyyy)". The year part parses back to the release year. |
| `KinopoiskService.BuildRequest` | Src/Application/Service/KinopoiskService.cs:152-171 | The create request carries the user, the user's rating, the TMDb id as text and the generated content. Its type is `Movie` exactly when the media type, lower-cased, is "movie". |
| `KinopoiskService.RequestedTypeFollowsMedia` | Src/Application/Service/KinopoiskService.cs:153-170 | For any media the resolver returns, the requested type is `Movie` for "movie" and `TV` for "tv". |
| `KinopoiskService.RatingStep` | Src/Application/Service/KinopoiskService.cs:138-186 | One rating touches the store, and sends events, only when it resolves. A resolved rating leaves a rejected row behind exactly when its creation fails. Once a row is rejected, every later creation fails and changes nothing. |
| `KinopoiskService.Convert` | Src/Application/Service/KinopoiskService.cs:134-193 | Every rating yields exactly one review or one error line. At most one id is used per rating. A rejected row stays rejected to the end of the batch. |
| `KinopoiskService.BatchResult` | Src/Application/Service/KinopoiskService.cs:203-205 | The batch succeeds exactly when at least one review was created, and returns all of them. Otherwise it fails with "Failed to convert any ratings. Errors: " followed by the errors joined by "; ". |
| `KinopoiskService.ConvertRating` | Src/Application/Service/KinopoiskService.cs:138-186 | One iteration of the loop. It resolves the rating, builds the request and creates the review through the service. The result, the new store and the published events are the ones `RatingStep` gives. |
| `KinopoiskService.ConvertNext` | Src/Application/Service/KinopoiskService.cs:134-192 | It processes one more rating and appends its review or error to the running lists. It keeps the store, the events and the counters equal to `Convert` of the longer prefix. |
| `KinopoiskService.ConvertRatingsToReviews` | Src/Application/Service/KinopoiskService.cs:124-206 | The batch loop returns `BatchResult` of `Convert` over all ratings in order. It leaves the store, the rejected-row flag and the published events as `Convert` says, and keeps the service valid. |
| `KinopoiskService.ConvertPreservesWellFormed` | Src/Application/Service/KinopoiskService.cs:173-186 | A batch import never breaks the store's unique index or foreign keys. |
| `KinopoiskService.CreatedReviewsAreTheUsers` | Src/Application/Service/KinopoiskService.cs:161-177 | Every review the batch returns belongs to the importing user. Each has the default reference type, whatever the media type. |
| `KinopoiskService.UnresolvedRatingFails` | Src/Application/Service/KinopoiskService.cs:142-148 | A rating that does not resolve leaves the store and the events alone. A batch of just that rating fails with the resolver's message prefixed by the Kinopoisk id and name. |
| `KinopoiskService.ResolvedRatingIsCreated` | Src/Application/Service/KinopoiskService.cs:161-177 | A rating that resolves, and whose creation succeeds, yields one review. That review has the user's rating, the TMDb id and the generated content. |
| `KinopoiskService.RejectedRowFailsTheRest` | Src/Application/Service/KinopoiskService.cs:173-186 | On a context that already tracks a rejected row, no rating of the batch is created. The store and the events stay as they were. |
| `KinopoiskService.FirstSaveFailureFailsBatch` | Src/Application/Service/KinopoiskService.cs:173-205 | When the first rating resolves but its review cannot be saved, the batch creates no review at all and fails, whatever follows. |
| `KinopoiskService.ConvertDetaching` | Src/Application/Service/KinopoiskService.cs:134-193 | The corrected batch, where a failed save leaves nothing tracked. Every rating yields one review or one error, and no rejected row remains. |
| `KinopoiskService.DetachingKeepsLaterReviews` | Src/Application/Service/KinopoiskService.cs:173-205 | In the corrected batch, a rating that cannot be saved followed by one that can gives a success holding the second review. |
| `KinopoiskService.DetachingAgreesWithoutRejection` | Src/Application/Service/KinopoiskService.cs:134-205 | When no save fails, the batch as written and the corrected batch give the same result, store and events. |
| `KinopoiskApi.FormatDate` | Src/Application/Service/KinopoiskService.cs:311 | `ToString("yyyy-MM-dd")` gives ten characters with dashes at positions 4 and 7. |
| `KinopoiskApi.FormatDateYear` | Src/Application/Service/KinopoiskService.cs:214 | `Split('-')[0]` of a formatted date is four digits that parse back to the year. |
| `Json.GetPropertyString` | Src/Api/Middleware/CookieTokenMiddleware.cs:70 | `GetProperty(...).GetString()` throws exactly on an absent property or a non-string. It is `null` exactly on JSON `null`. |
| `Json.TryGetPropertyString` | Src/Application/Service/KinopoiskService.cs:376 | The `TryGetProperty ? GetString() : null` idiom is `null` for an absent property or JSON `null`. It throws only on a non-string. |
| `Json.GetPropertyInt32` | Src/Application/Service/KinopoiskService.cs:34 | `GetInt32` succeeds exactly on a number in the `Int32` range, and returns it. |
| `Text.BeforeFirst` | Src/Application/Service/KinopoiskService.cs:214 | `Split(c)[0]` is the longest prefix free of `c`. It is followed by `c` when shorter than the input. |
| `Text.ToLowerAscii` | Src/Application/Service/KinopoiskService.cs:153 | Lower-casing keeps the length and maps each character on its own. Only ASCII letters are lowered. |
| `Wrappers.Wrap32` | Src/Application/Service/ReviewService.cs:176 | The wrapped value is an `Int32`, equal to the exact value when that fits, and congruent to it modulo 2^32. |
| `Domain.Review.Create` | Src/Domain/Entity/Review.cs:33-40 | A new review has the given author, content, rating and reference id. It has no votes, the default reference type, and exactly one `ReviewCreated` event. |
| `Domain.Review.Mapped` | Src/Application/Mapping/ReviewMappingProfile.cs:30-37 | A review mapped from a row copies its fields. The author has only an id and no name, and there are no pending events. |
| `Domain.Review.DomainEvents` | Src/Domain/AggregateRoot/AggregateRoot.cs:9 | It exposes the pending event list itself. |
| `Domain.Review.AddDomainEvent` | Src/Domain/AggregateRoot/AggregateRoot.cs:11 | The event is appended at the end and the earlier events are kept. |
| `Domain.Review.ClearDomainEvents` | Src/Domain/AggregateRoot/AggregateRoot.cs:13 | No events remain. |
| `Domain.Review.UpdateRating` | Src/Domain/Entity/Review.cs:42-52 | An equal rating changes nothing and returns `null`. A different one is stored and yields one `ReviewRatingUpdated` event, which is both returned and appended. |
| `Domain.Review.UpdateContent` | Src/Domain/Entity/Review.cs:54-63 | Different content yields one `ReviewContentUpdated` event, returned and appended. The content field itself is left unchanged. |
| `Domain.Review.AddLike` | Src/Domain/Entity/Review.cs:65-72 | It appends and returns `LikeAdded(review, user)`. |
| `Domain.Review.AddDislike` | Src/Domain/Entity/Review.cs:74-81 | It appends and returns `DislikeAdded(review, user)`. |
| `Domain.UpdateTwice` | Src/Domain/Entity/Review.cs:42-52 | Setting the same rating twice records exactly one `ReviewRatingUpdated` event when the rating changes and none otherwise. The second call returns `null`. The rating then holds the new value, and the author, content and counters are untouched. |
| `DomainService.EventPublisher.PublishAsync` | Src/Application/EventPublisher/EventPublisher.cs:8-11 | The event is recorded as sent, after all earlier ones. |
| `DomainService.PublishEventAsync` | Src/Application/Service/DomainService.cs:8-16 | Every pending event is sent, in order, after what was sent before. The aggregate's list is then empty. |
| `DomainService.PublishTwice` | Src/Application/Service/DomainService.cs:8-16 | Publishing again right away sends nothing more, so publishing is idempotent once drained. |
| `ReviewService.Toggle` | Src/Application/Service/ReviewService.cs:242-256 | The vote is present afterwards exactly when it was absent before, and no other vote changes. |
| `ReviewService.ToggleTwice` | Src/Infrastructure/Configuration/LikeEntityTypeConfiguration.cs:11 | Toggling the same `(reviewId, userId)` key twice restores the table. |
| `ReviewService.CreateOutcome` | Src/Application/Service/ReviewService.cs:17-50 | A failed creation returns the save error and changes nothing. A success stores the new row under the fresh id, appends it to the row order, returns its DTO and sends one `ReviewCreated`. Further properties are in `CreateSemantics`. |
| `ReviewService.DeleteOutcome` | Src/Application/Service/ReviewService.cs:52-70 | Deletion succeeds exactly for the author of a stored review, and then removes it. A failure changes nothing. No event is sent. Further properties are in `DeleteSemantics`. |
| `ReviewService.LikeOutcome` | Src/Application/Service/ReviewService.cs:234-268 | It succeeds exactly when the review is stored. It then flips the user's like and leaves the rows and dislikes alone. A failure changes nothing. Further properties are in `LikeSemantics`. |
| `ReviewService.DislikeOutcome` | Src/Application/Service/ReviewService.cs:72-106 | It succeeds exactly when the review is stored. It then flips the user's dislike and leaves the rows and likes alone. A failure changes nothing. Further properties are in `DislikeSemantics`. |
| `ReviewService.UpdateOutcome` | Src/Application/Service/ReviewService.cs:270-298 | The store never changes. It succeeds exactly for the author of a stored review, and returns that author's DTO with the new rating and the old content. At most two events are sent. Further properties are in `UpdateSemantics`. |
| `ReviewService.WithRejectedRow` | Src/Application/Service/ReviewService.cs:35-48 | On a context that tracks a rejected row, an operation that would have saved fails with the save error and changes nothing. An operation that fails before saving, and any operation on a clean context, is unaffected. |
| `ReviewService.Rows` | Src/Application/Service/ReviewService.cs:168-171 | The query's rows all satisfy its filter, and there are no more of them than stored rows. |
| `ReviewService.RowsMembership` | Src/Application/Service/ReviewService.cs:112-115 | In a well-formed store, a row is returned by a query exactly when it is stored and satisfies the filter. |
| `ReviewService.TotalCountIsStoreSize` | Src/Application/Service/ReviewService.cs:173 | With no deleted rows, `TotalCount` of the unfiltered query is the number of stored reviews. |
| `ReviewService.RowsCount` | Src/Application/Service/ReviewService.cs:173 | Without repeated ids, a query selects one row per matching id. |
| `ReviewService.PageHoldsMatchingRows` | Src/Application/Service/ReviewService.cs:164-197 | Whatever order the rows are read in, the total is the number of stored rows matching the query. The page is no longer than the limit, and each entry is a stored row that matches. |
| `ReviewService.PageCovers` | Src/Application/Service/ReviewService.cs:175-178 | Entry `m` of page `pageNumber` is row `(pageNumber - 1) * pageSize + m` of the query in the model's row order, mapped to a DTO. |
| `ReviewService.PagingExamples` | Src/Tests/UnitTests/ReviewServiceTests.cs:529-607 | With 15 reviews, page 1 of size 10 holds 10 with a total of 15. An empty store gives an empty page with a total of 0. |
| `ReviewService.GetReviewsAsync` | Src/Application/Service/ReviewService.cs:164-197 | It succeeds exactly when the 32-bit offset and the page size are non-negative. The page is then the slice of the non-deleted rows at that offset, in the model's row order, with the full count and the request's page number and size. |
| `ReviewService.GetUserReviewsAsync` | Src/Application/Service/ReviewService.cs:108-141 | The same as `GetReviewsAsync`, over the rows written by the user. |
| `ReviewService.GetReviewsForTypeAsync` | Src/Application/Service/ReviewService.cs:199-232 | The same as `GetReviewsAsync`, over the rows of the reference type. |
| `ReviewService.GetReviewByIdAsync` | Src/Application/Service/ReviewService.cs:143-162 | It succeeds exactly when the id is stored and returns that row as a DTO. Otherwise it fails with "Review not found". |
| `ReviewService.ReviewService.CreateReviewAsync` | Src/Application/Service/ReviewService.cs:17-50 | It returns the result of `CreateOutcome` as seen through `WithRejectedRow`, and moves the store to its new state. It publishes that outcome's events and keeps the store well formed. A failed creation leaves a rejected row behind. |
| `ReviewService.ReviewService.DeleteReviewAsync` | Src/Application/Service/ReviewService.cs:52-70 | It returns `DeleteOutcome`'s result as seen through `WithRejectedRow`, and moves the store to its new state, keeping the store well formed. |
| `ReviewService.ReviewService.LikeReviewAsync` | Src/Application/Service/ReviewService.cs:234-268 | It returns `LikeOutcome`'s result as seen through `WithRejectedRow`, moves the store to its new state and publishes its events. |
| `ReviewService.ReviewService.DislikeReviewAsync` | Src/Application/Service/ReviewService.cs:72-106 | It returns `DislikeOutcome`'s result as seen through `WithRejectedRow`, moves the store to its new state and publishes its events. |
| `ReviewService.ReviewService.UpdateReviewAsync` | Src/Application/Service/ReviewService.cs:270-298 | It returns `UpdateOutcome`'s result as seen through `WithRejectedRow`, and publishes its events. The store is left as it was. |
| `ReviewService.CreateSemantics` | Src/Application/Service/ReviewService.cs:17-50 | Creation succeeds exactly when the id is new and the author has no review of the same reference with the default type. On success it adds exactly the new row with no votes, changes nothing else and sends one `ReviewCreated`. On failure nothing changes, no event is sent, and the save error is returned. |
| `ReviewService.CreateIgnoresRequestedType` | Src/Application/Service/ReviewService.cs:25-30 | The requested `ReferenceType` has no effect on creation. |
| `ReviewService.SecondReviewOfSameReferenceFails` | Src/Infrastructure/Configuration/ReviewEntityTypeConfiguration.cs:35-39 | After a successful creation, a second review by the same author of the same reference fails and leaves the store unchanged. |
| `ReviewService.CreatePreservesWellFormed` | Src/Infrastructure/Configuration/ReviewEntityTypeConfiguration.cs:35-39 | Creation keeps the unique index, the row order and the foreign keys intact. |
| `ReviewService.CreatedReviewIsFound` | Src/Application/Service/ReviewService.cs:143-156 | A review just created is returned by `GetReviewByIdAsync` as the same DTO. |
| `ReviewService.DeleteSemantics` | Src/Application/Service/ReviewService.cs:52-70 | A missing id gives "Review not found", and another author gives the unauthorized error. Either way nothing changes. Deletion succeeds exactly for the author. It then removes that row and, by cascade, its likes and dislikes, keeps every other row, and sends no event. |
| `ReviewService.DeletedReviewIsNotFound` | Src/Application/Service/ReviewService.cs:56-57 | After a successful delete, the review is not found. |
| `ReviewService.DeletePreservesWellFormed` | Src/Infrastructure/Configuration/ReviewEntityTypeConfiguration.cs:41-51 | Deletion with its cascade keeps the store well formed, so no vote is left dangling. |
| `ReviewService.LikeSemantics` | Src/Application/Service/ReviewService.cs:234-268 | It fails with "Review not found" exactly when the review is missing, and then changes nothing. Otherwise it toggles the user's like and touches nothing else. It sends `LikeAdded` exactly when it adds the like, and nothing when it removes it. |
| `ReviewService.DislikeSemantics` | Src/Application/Service/ReviewService.cs:72-106 | The same as `LikeSemantics`, for dislikes and `DislikeAdded`. |
| `ReviewService.LikeTwiceRestores` | Src/Application/Service/ReviewService.cs:242-257 | Liking twice restores the store, and exactly one event is sent over both calls when the review exists. |
| `ReviewService.DislikeTwiceRestores` | Src/Application/Service/ReviewService.cs:80-95 | Disliking twice restores the store, and exactly one event is sent over both calls when the review exists. |
| `ReviewService.LikePreservesWellFormed` | Src/Infrastructure/Configuration/ReviewEntityTypeConfiguration.cs:41-51 | Likes and dislikes only ever refer to existing reviews. |
| `ReviewService.UpdateSemantics` | Src/Application/Service/ReviewService.cs:270-298 | The store never changes. A missing id gives not found, and another author gives the unauthorized error, with no events. On success the DTO shows the old content and the new rating, and one event is sent per field that differs. |
| `ResiliencePolicies.SleepDuration` | Src/Application/Policies/ResiliencePolicies.cs:28 | The wait before retry `n` is 2^n seconds, doubling each time. |
| `ResiliencePolicies.RetryHandles` | Src/Application/Policies/ResiliencePolicies.cs:16-25 | Defined as `HttpRequestException`, `TimeoutException` and the six listed statuses. Every retried response is a 4xx or 5xx status that the breaker also counts. Timeout rejections, an open circuit and other exceptions are never retried. |
| `ResiliencePolicies.BreakerHandles` | Src/Application/Policies/ResiliencePolicies.cs:42-44 | A response counts as a breaker failure exactly when it is outside 2xx. Of the exceptions, only `HttpRequestException` counts. |
| `ResiliencePolicies.RetryFrom` | Src/Application/Policies/ResiliencePolicies.cs:16-32 | A retry run stops at the first outcome it does not handle, or after 3 retries. Every earlier outcome was handled, and the waits are the back-off sequence. |
| `ResiliencePolicies.RetryBounds` | Src/Application/Policies/ResiliencePolicies.cs:26-28 | A call makes 1 to 4 attempts and waits a prefix of 2, 4, 8 seconds, so at most 14 seconds in total. |
| `ResiliencePolicies.UnhandledReturnsAtOnce` | Src/Application/Policies/ResiliencePolicies.cs:17-25 | An outcome the retry does not handle is returned after one attempt with no wait. |
| `ResiliencePolicies.NotFoundIsNotRetried` | Src/Application/Policies/ResiliencePolicies.cs:19-44 | A 404 is not retried but counts towards the breaker. |
| `ResiliencePolicies.SuccessIsNeverHandled` | Src/Application/Policies/ResiliencePolicies.cs:19-44 | Neither policy handles a 2xx response. |
| `ResiliencePolicies.RetryHandledIsBreakerHandled` | Src/Application/Policies/ResiliencePolicies.cs:17-44 | The only outcome the retry handles and the breaker ignores is `TimeoutException`. Polly's `TimeoutRejectedException` and `BrokenCircuitException` are not retried. |
| `ResiliencePolicies.CombinedPolicyOrder` | Src/Application/Policies/ResiliencePolicies.cs:70-76 | The wrap is retry outermost, then circuit breaker, then timeout. |
| `Http.HttpContext.RequestCookie` | Src/Api/Middleware/CookieTokenMiddleware.cs:14-15 | `TryGetValue` compares cookie names ignoring case. It finds a cookie exactly when one is present under the name in any casing, and yields that cookie's value. |
| `Http.HttpContext.SetRequestHeader` | Src/Api/Middleware/CookieTokenMiddleware.cs:18-31 | Assigning a header replaces it in whatever casing it was stored. Assigning `null` removes it. |
| `Http.SetHeader` | Src/Api/Middleware/CookieTokenMiddleware.cs:18-31 | Header names are compared ignoring case. The indexer sets or removes the header, no other casing of the name is left behind, and every header with a different name is kept. |
| `Http.HttpContext.AppendResponseCookie` | Src/Api/Middleware/CookieTokenMiddleware.cs:88 | The cookie is appended to the response cookies. |
| `Http.HttpContext.Next` | Src/Api/Middleware/CookieTokenMiddleware.cs:35 | The next delegate runs once. |
| `HttpContextExtensions.GetDomainUser` | Src/Api/Extensions/HttpContextExtensions.cs:12-17 | It is the user exactly when the "DomainUser" item exists and holds a `User`. Otherwise it is `null`. |
| `HttpContextExtensions.GetDomainUserOrThrow` | Src/Api/Extensions/HttpContextExtensions.cs:22-29 | It returns the stored user, or fails with `InvalidOperationException` and its message exactly when there is none. |
| `DomainUserMiddleware.FindFirst` | Src/Api/Middleware/DomainUserMiddleware.cs:23-26 | `FindFirst` returns the first claim of the type, compared case-insensitively, and `null` exactly when there is none. |
| `DomainUserMiddleware.SelectUserIdClaim` | Src/Api/Middleware/DomainUserMiddleware.cs:23-25 | The id claim, when there is one, is one of the principal's claims, of type "sub", the name identifier or "user_id". The order of preference is proved in `IdClaimFallback`. |
| `DomainUserMiddleware.SelectUserName` | Src/Api/Middleware/DomainUserMiddleware.cs:26 | The name is "Unknown" or the value of a "name" or "preferred_username" claim. The order of preference is proved in `UserNameFallback`. |
| `DomainUserMiddleware.Decide` | Src/Api/Middleware/DomainUserMiddleware.cs:21-35 | An unauthenticated request is skipped. A stored user has the parsed id of the id claim and the selected name. The exact conditions are proved in `DecideSemantics`. |
| `DomainUserMiddleware.IdClaimFallback` | Src/Api/Middleware/DomainUserMiddleware.cs:23-25 | The id claim is "sub", else the name-identifier claim, else "user_id". It is missing exactly when none of the three exists. |
| `DomainUserMiddleware.UserNameFallback` | Src/Api/Middleware/DomainUserMiddleware.cs:26 | The user name is "name", else "preferred_username", else "Unknown". |
| `DomainUserMiddleware.DecideSemantics` | Src/Api/Middleware/DomainUserMiddleware.cs:21-35 | A user is stored exactly when the request is authenticated and the id claim is a non-empty parsable Guid. The code throws exactly when it is authenticated without any id claim. Unauthenticated requests are skipped. |
| `DomainUserMiddleware.InvokeAsync` | Src/Api/Middleware/DomainUserMiddleware.cs:18-39 | The middleware as written. It throws exactly in the missing-id-claim case, and then does not call the next delegate. Otherwise it stores the user as decided and calls next once. |
| `DomainUserMiddleware.NoIdClaimThrows` | Src/Api/Middleware/DomainUserMiddleware.cs:23-28 | An authenticated principal with only a "name" claim makes the code dereference `null`. |
| `DomainUserMiddleware.DecideNullSafe` | Src/Api/Middleware/DomainUserMiddleware.cs:21-35 | The corrected decision never throws. It stores a user under exactly the same condition and with the same id and name. |
| `DomainUserMiddleware.InvokeAsyncNullSafe` | Src/Api/Middleware/DomainUserMiddleware.cs:18-39 | The corrected middleware stores the user per `DecideNullSafe` and always calls next once. |
| `DomainUserMiddleware.NullSafeAgrees` | Src/Api/Middleware/DomainUserMiddleware.cs:21-35 | Wherever the code as written does not throw, the corrected decision is the same. |
| `DomainUserMiddleware.StoredUserIsVisible` | Src/Api/Middleware/DomainUserMiddleware.cs:34 | A stored user is exactly what `GetDomainUser` reads back. A request that stores nothing leaves the items alone. |
| `CookieTokenMiddleware.FactoriesAreDistinct` | Src/Api/Middleware/CookieTokenMiddleware.cs:119-131 | `Success` carries both tokens and no error. `Failure` carries only the error message. |
| `CookieTokenMiddleware.ParseSameSite` | Src/Api/Middleware/CookieTokenMiddleware.cs:80 | `Enum.Parse<SameSiteMode>` accepts exactly the four member names, and "Lax" gives `Lax`. Empty or white-space-only text throws the `ArgumentException` message "Must specify valid information for parsing in the string. (Parameter 'value')". Any other text throws `Requested value '<s>' was not found.`. |
| `CookieTokenMiddleware.BlankSameSiteFailsRefresh` | Src/Api/Middleware/CookieTokenMiddleware.cs:61-113 | With a blank `SameSite` option, an otherwise good token reply is a caught failure carrying the `ArgumentException` message, and no cookie is written. |
| `CookieTokenMiddleware.Refresh` | Src/Api/Middleware/CookieTokenMiddleware.cs:44-114 | A failure carries an error message and sets no cookie. A success sets one or two cookies, the first under the access cookie name with the new access token. The full rules are proved in `RefreshSemantics`. |
| `CookieTokenMiddleware.HeadersAfter` | Src/Api/Middleware/CookieTokenMiddleware.cs:14-33 | Only the headers named `Authorization` or `RefreshToken`, in any casing, can change. With an access cookie, `Authorization` is `Bearer <access>`. With an access cookie or a successful refresh, no differently cased copy of `Authorization` remains. With no cookie, nothing changes. The full table is proved in `DecisionTable`. |
| `CookieTokenMiddleware.StaleLowerCaseHeaderIsReplaced` | Src/Api/Middleware/CookieTokenMiddleware.cs:14-19 | An access cookie sent as "accesstoken" is found under the literal name. A lower-cased `authorization` header, as HTTP/2 sends it, is replaced by `Authorization: Bearer <access>` rather than kept beside it. |
| `CookieTokenMiddleware.CookiesAfter` | Src/Api/Middleware/CookieTokenMiddleware.cs:14-33 | Cookies are written only when the refresh cookie is the only one present, and at most two of them. |
| `CookieTokenMiddleware.RefreshSemantics` | Src/Api/Middleware/CookieTokenMiddleware.cs:61-113 | An exception gives "Token refresh exception: <message>", and a failure status gives "Failed to refresh token". A failure never sets cookies. A success needs a success status and a string `access_token`. It sets the access cookie with `expires_in` seconds and the options' SameSite. It sets the refresh cookie, with 7 days, if and only if a non-empty refresh token came back. |
| `CookieTokenMiddleware.MissingAccessTokenFails` | Src/Api/Middleware/CookieTokenMiddleware.cs:70 | A `null` `access_token` fails with the `InvalidOperationException` message. An absent one fails with `KeyNotFoundException`. |
| `CookieTokenMiddleware.DefaultOptionsWork` | Src/Api/Model/CookieOptions.cs:11-41 | With the default options a good reply sets the "AccessToken" and "RefreshToken" cookies as HttpOnly, Secure, Lax, path "/" and no domain. |
| `CookieTokenMiddleware.RefreshAccessTokenAsync` | Src/Api/Middleware/CookieTokenMiddleware.cs:44-114 | It returns `Refresh`'s result and appends exactly its cookies to the response. |
| `CookieTokenMiddleware.InvokeAsync` | Src/Api/Middleware/CookieTokenMiddleware.cs:12-36 | The request headers and response cookies follow the decision table, and the next delegate runs exactly once. |
| `CookieTokenMiddleware.DecisionTable` | Src/Api/Middleware/CookieTokenMiddleware.cs:14-33 | With both cookies it sets `Authorization: Bearer <access>` and `RefreshToken`, replacing those headers in any casing. With only the access cookie it sets `Authorization`. With only the refresh cookie, a successful refresh gives the exact map: every casing of both names removed, then `Authorization` and, when a refresh token came back, `RefreshToken` set. A failed refresh changes nothing. With neither cookie nothing changes. Only a refresh sets cookies. |

## Left out

- Logging, `Console.WriteLine` in the policy callbacks, and `async`/`await` scheduling. None of them changes a result or a state.
- HTTP transport, URLs, API keys and the bodies of the remote services. Each endpoint is a function parameter that returns the parsed reply or the exception message. JSON text parsing (`JsonDocument.Parse`) and `JsonSerializer.Deserialize` are part of that parameter.
- How .NET formats a `double` (`StringBuilder.Append(double)`): it is the parameter `show`. `DateTime.ToString("yyyy-MM-dd")` is modelled for dates with a four-digit year in the Gregorian calendar. The call passes no `IFormatProvider`, so under a current culture with another calendar the code would print a different year.
- EF Core transactions and the database provider. The store is a value, and a failed save leaves it unchanged with the provider's message. Of change tracking, only the rejected row left behind by a failed save is modelled. Concurrent requests are not modelled.
- `ReviewService.WithRejectedRow`: a lookup by id (`FindAsync`) would also find the rejected row in the tracker. The model ignores this, since that row's fresh id is known to no caller.
- AutoMapper configuration beyond the fields it copies (`Domain.Review.Mapped`, `ReviewService.RecordDTO`).
- `MediaService`, the controllers, `Program.cs` and the service registration are not part of this model.
- `ReviewService.GetReviewsAsync`: the query has no `OrderBy`, so `OFFSET`/`LIMIT` take whichever rows the database yields. EF Core's single query for the `Include`s then sorts the page by `Id`. The model takes the rows in insertion order and keeps that order within the page. Which rows fall on a given page, and their order, are therefore modelling choices, not promises of the code. The order-free facts are in `PageHoldsMatchingRows`.
- `ReviewService.GetUserReviewsAsync`: the same unspecified row order as `GetReviewsAsync`.
- `ReviewService.GetReviewsForTypeAsync`: the same unspecified row order as `GetReviewsAsync`.
- `ReviewService.PageCovers`: holds for the model's insertion order only, because the code does not order the rows.
- `KinopoiskService.ImportUserRatings`: the page counter is an unbounded integer. In the code it is an `Int32`, so `page++` (lines 41 and 56) would wrap if `totalPages` were `Int32.MaxValue`. The model then stops where the code would go on.
- `KinopoiskService.GenerateReviewContent`: `Environment.NewLine` is taken to be "\n", as on Linux. On Windows it is "\r\n".
- `Text.ToLowerAscii`: lowers only ASCII letters, while `ToLowerInvariant` lowers every letter. A type such as "FİLM" is a movie type for the code but not for the model.
- `KinopoiskService.ConvertRatingsToReviews`: the per-item `catch` (lines 188-192) cannot fire in the model. The resolver and `CreateReviewAsync` turn every exception into a failed `Result`.
- `ResiliencePolicies`: the circuit breaker's open/half-open timing, and the timeout policy's cancellation, need a clock and concurrency. They are modelled only as the constants `HandledEventsAllowedBeforeBreaking` = 5, `DurationOfBreakSeconds` = 10 and `TimeoutSeconds` = 10 and the handled-outcome predicates. `RetryFrom` counts attempts for one call; the breaker is created afresh in every `GetCircuitBreakerPolicy()` call, so no state is shared.
- `CookieTokenMiddleware.RefreshAccessTokenAsync`: `DateTimeOffset.UtcNow` is left out. Expiry is stated relative to now, as `InSeconds(expires_in)` or `InDays(7)`. The form fields and URL of the refresh request are left out.
- `CookieTokenMiddleware.ParseSameSite`: accepts only the exact member names. `Enum.Parse` also accepts numeric text, member names with surrounding white space and comma-separated lists, and those inputs are not modelled. Blank text is modelled.
- `DomainUserMiddleware.FindFirst`: compares claim types ignoring the case of ASCII letters only. Full Unicode case folding is not modelled.
- `Http.SetHeader`: header names are compared ignoring the case of ASCII letters only, as in `Text.EqualsIgnoreCase`. A replaced header is stored under the name as assigned, where the framework may keep the old casing; lookups ignore case either way.
- `Http.HttpContext.RequestCookie`: the request cookies are keyed by their ASCII lower-cased names. When a request sends two cookies whose names differ only in case, which one the framework's cookie parser keeps is not part of this model.
- `DomainUserMiddleware.DecideSemantics`: `Guid.TryParse` is the parameter `parseGuid`.

## Findings

| source | as written | input that shows it | evidently intended | confidence | as-written member | corrected member |
|---|---|---|---|---|---|---|
| Src/Api/Middleware/DomainUserMiddleware.cs:23-28 | `userId` is `FindFirst("sub") ?? FindFirst(NameIdentifier) ?? FindFirst("user_id")`, which can be `null`; `userId.Value` is then read without a null check | an authenticated principal whose only claim is `name = alice` | skip storing a user when no id claim exists and still call the next middleware | high, not executed | `DomainUserMiddleware.NoIdClaimThrows` | `DomainUserMiddleware.NullSafeAgrees` |
| Src/Application/Service/ReviewService.cs:35-48 | a failed `SaveChangesAsync` is caught, but the added review stays tracked by the request's context; every later save in `ConvertRatingsToReviews` (KinopoiskService.cs:173) inserts it again and fails | a re-import whose first rating is a title the user has already reviewed, followed by new titles: no review is created and the call fails with "Failed to convert any ratings. Errors: ..." | a failed save costs only its own rating, and the later ratings are still created | medium, not executed | `KinopoiskService.FirstSaveFailureFailsBatch` | `KinopoiskService.DetachingKeepsLaterReviews` |
