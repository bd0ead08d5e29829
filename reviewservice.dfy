/** `ReviewService`: the review store and its operations. The database is the
    value `StoreState` (review rows by id, their insertion order, and the
    `Likes`/`Dislikes` tables as sets of `(reviewId, userId)` keys); the
    service class holds that state in fields and changes it in place. Each
    state-changing method is specified by an `...Outcome` function giving its
    result, the new store and the events it publishes; the queries are
    functions of the store. */
module ReviewService {
  import opened Wrappers
  import opened Domain
  import opened DomainService

  /** A row of the `Reviews` table. */
  datatype ReviewRecord = ReviewRecord(
    id: Guid, authorId: Guid, content: string, rating: real,
    likes: int, dislikes: int, referenceId: string,
    referenceType: ReferenceType, isDeleted: bool)

  datatype ReviewDTO = ReviewDTO(
    authorId: Guid, content: string, rating: real, likes: int, dislikes: int,
    referenceId: string, referenceType: ReferenceType)

  datatype CreateReviewRequest = CreateReviewRequest(
    authorId: Guid, authorName: string, content: string, rating: real,
    referenceType: ReferenceType, referenceId: string)

  datatype UpdateReviewRequest = UpdateReviewRequest(reviewId: Guid, content: string, rating: real)

  datatype PagedResult = PagedResult(data: seq<ReviewDTO>, totalCount: int, pageNumber: int, pageSize: int)

  /** A row of `Likes` or `Dislikes`, keyed by `(reviewId, userId)`. */
  type Vote = (Guid, Guid)

  datatype StoreState = StoreState(
    reviews: map<Guid, ReviewRecord>, order: seq<Guid>,
    likes: set<Vote>, dislikes: set<Vote>)

  /** What a state-changing operation does: its result, the store after it,
      and the events it hands to the publisher, in order. */
  datatype Outcome<T> = Outcome(result: Result<T>, store: StoreState, events: seq<DomainEvent>)

  const NotFoundMessage := "Review not found"
  const UnauthorizedDeleteMessage := "Unauthorized to delete this review"
  const UnauthorizedUpdateMessage := "Unauthorized to update this review"
  /** The message of the exception the database layer raises when a save
      violates a key or the unique index. */
  const SaveFailedMessage := "An error occurred while saving the entity changes. See the inner exception for details."
  /** PostgreSQL's refusals of a negative `OFFSET` and a negative `LIMIT`,
      as the driver reports them: the SQLSTATE code, then the server's text. */
  const NegativeOffsetMessage := "2201X: OFFSET must not be negative"
  const NegativeLimitMessage := "2201W: LIMIT must not be negative"

  /** The columns of the unique index on `Reviews`. */
  function Key(rec: ReviewRecord): (Guid, string, ReferenceType) {
    (rec.authorId, rec.referenceId, rec.referenceType)
  }

  /** The invariants the database schema enforces: rows are stored under their
      own id, the `(AuthorId, ReferenceId, ReferenceType)` index is unique,
      the row order lists every row once, and every vote names an existing
      review (the foreign keys). */
  ghost predicate WellFormed(st: StoreState) {
    && (forall id :: id in st.reviews ==> st.reviews[id].id == id)
    && (forall a, b :: a in st.reviews && b in st.reviews && a != b ==> Key(st.reviews[a]) != Key(st.reviews[b]))
    && (forall id :: id in st.reviews <==> id in st.order)
    && Distinct(st.order)
    && (forall v :: v in st.likes ==> v.0 in st.reviews)
    && (forall v :: v in st.dislikes ==> v.0 in st.reviews)
  }

  predicate Distinct(s: seq<Guid>) {
    forall i, j :: 0 <= i < j < |s| ==> s[i] != s[j]
  }

  predicate KeyFree(reviews: map<Guid, ReviewRecord>, key: (Guid, string, ReferenceType)) {
    forall id :: id in reviews ==> Key(reviews[id]) != key
  }

  function RecordDTO(rec: ReviewRecord): ReviewDTO {
    ReviewDTO(rec.authorId, rec.content, rec.rating, rec.likes, rec.dislikes, rec.referenceId, rec.referenceType)
  }

  /** The object mapper's `Review` to `ReviewDTO` copy. */
  function ReviewToDTO(rev: Review): ReviewDTO
    reads rev
  {
    ReviewDTO(rev.author.id, rev.content, rev.rating, rev.likes, rev.dislikes, rev.referenceId, rev.referenceType)
  }

  /** The object mapper's `Review` to row copy; a new row is not deleted. */
  function ReviewToRecord(rev: Review): ReviewRecord
    reads rev
  {
    ReviewRecord(rev.id, rev.author.id, rev.content, rev.rating, rev.likes, rev.dislikes, rev.referenceId, rev.referenceType, false)
  }

  /** Adds the vote if absent, removes it if present. */
  function Toggle(votes: set<Vote>, v: Vote): (r: set<Vote>)
    ensures v in r <==> v !in votes
    ensures forall w :: w != v ==> (w in r <==> w in votes)
  {
    if v in votes then votes - {v} else votes + {v}
  }

  lemma ToggleTwice(votes: set<Vote>, v: Vote)
    ensures Toggle(Toggle(votes, v), v) == votes
  {
  }

  // ---------------------------------------------------------------------
  // Specifications of the state-changing operations

  function CreateOutcome(st: StoreState, request: CreateReviewRequest, newId: Guid): (o: Outcome<ReviewDTO>)
    ensures o.result.Fail? ==> o.result.error == Failure(SaveFailedMessage) && o.store == st && o.events == []
    ensures o.result.Ok? ==> && newId !in st.reviews && newId in o.store.reviews
                             && o.result.value == RecordDTO(o.store.reviews[newId])
                             && o.result.value.authorId == request.authorId && o.store.order == st.order + [newId]
                             && o.store.likes == st.likes && o.store.dislikes == st.dislikes
    ensures o.result.Ok? ==> |o.events| == 1 && o.events[0].ReviewCreated?
  {
    var rec := ReviewRecord(newId, request.authorId, request.content, request.rating, 0, 0,
                            request.referenceId, DefaultReferenceType, false);
    if newId in st.reviews || !KeyFree(st.reviews, Key(rec)) then
      Outcome(Fail(Failure(SaveFailedMessage)), st, [])
    else
      Outcome(Ok(RecordDTO(rec)),
              st.(reviews := st.reviews[newId := rec], order := st.order + [newId]),
              [ReviewCreated(request.authorId, newId, request.content, request.rating, request.referenceId)])
  }

  function DeleteOutcome(st: StoreState, deleter: Guid, reviewId: Guid): (o: Outcome<()>)
    ensures o.result.Ok? <==> reviewId in st.reviews && deleter == st.reviews[reviewId].authorId
    ensures o.result.Fail? ==> o.store == st
    ensures o.result.Ok? ==> reviewId !in o.store.reviews
    ensures o.events == []
  {
    if reviewId !in st.reviews then
      Outcome(Fail(Failure(NotFoundMessage)), st, [])
    else if deleter != st.reviews[reviewId].authorId then
      Outcome(Fail(Error(UnauthorizedDeleteMessage, UnauthorizedAccess)), st, [])
    else
      Outcome(Ok(()),
              StoreState(st.reviews - {reviewId}, Without(st.order, reviewId),
                         VotesNotOn(st.likes, reviewId), VotesNotOn(st.dislikes, reviewId)),
              [])
  }

  function LikeOutcome(st: StoreState, reviewId: Guid, userId: Guid): (o: Outcome<()>)
    ensures o.result.Ok? <==> reviewId in st.reviews
    ensures o.result.Fail? ==> o.store == st && o.events == []
    ensures o.store.reviews == st.reviews && o.store.order == st.order && o.store.dislikes == st.dislikes
    ensures o.result.Ok? ==> ((reviewId, userId) in o.store.likes <==> (reviewId, userId) !in st.likes)
  {
    if reviewId !in st.reviews then
      Outcome(Fail(Failure(NotFoundMessage)), st, [])
    else if (reviewId, userId) in st.likes then
      Outcome(Ok(()), st.(likes := st.likes - {(reviewId, userId)}), [])
    else
      Outcome(Ok(()), st.(likes := st.likes + {(reviewId, userId)}), [LikeAdded(reviewId, userId)])
  }

  function DislikeOutcome(st: StoreState, reviewId: Guid, userId: Guid): (o: Outcome<()>)
    ensures o.result.Ok? <==> reviewId in st.reviews
    ensures o.result.Fail? ==> o.store == st && o.events == []
    ensures o.store.reviews == st.reviews && o.store.order == st.order && o.store.likes == st.likes
    ensures o.result.Ok? ==> ((reviewId, userId) in o.store.dislikes <==> (reviewId, userId) !in st.dislikes)
  {
    if reviewId !in st.reviews then
      Outcome(Fail(Failure(NotFoundMessage)), st, [])
    else if (reviewId, userId) in st.dislikes then
      Outcome(Ok(()), st.(dislikes := st.dislikes - {(reviewId, userId)}), [])
    else
      Outcome(Ok(()), st.(dislikes := st.dislikes + {(reviewId, userId)}), [DislikeAdded(reviewId, userId)])
  }

  /** The update as written: a mapped copy of the row receives the new
      content and rating and its events are published, but the row itself
      is never changed, and the returned content is the old one because
      `UpdateContent` records an event without assigning. */
  function UpdateOutcome(st: StoreState, updater: Guid, request: UpdateReviewRequest): (o: Outcome<ReviewDTO>)
    ensures o.result.Ok? <==> request.reviewId in st.reviews && updater == st.reviews[request.reviewId].authorId
    ensures o.store == st
    ensures o.result.Fail? ==> o.events == []
    ensures o.result.Ok? ==> o.result.value.authorId == updater && o.result.value.rating == request.rating
                             && o.result.value.content == st.reviews[request.reviewId].content
    ensures |o.events| <= 2
  {
    if request.reviewId !in st.reviews then
      Outcome(Fail(Failure(NotFoundMessage)), st, [])
    else
      var rec := st.reviews[request.reviewId];
      if updater != rec.authorId then
        Outcome(Fail(Error(UnauthorizedUpdateMessage, UnauthorizedAccess)), st, [])
      else
        Outcome(Ok(RecordDTO(rec).(rating := request.rating)), st,
                (if request.content != rec.content then [ReviewContentUpdated(rec.authorId, rec.id, request.content)] else [])
                + (if request.rating != rec.rating then [ReviewRatingUpdated(rec.authorId, rec.id, request.rating)] else []))
  }

  /** An operation run on a database context that still tracks a row an
      earlier save could not write. The context is shared by every call in
      one request, and a failed `SaveChangesAsync` leaves the rejected row
      tracked as added, so every later save sends it again and fails the
      same way: a call that would have reached a successful save instead
      fails with the save error, changes nothing and publishes nothing.
      Calls that fail before saving are unaffected. */
  function WithRejectedRow<T>(o: Outcome<T>, st: StoreState, rejected: bool): (o': Outcome<T>)
    ensures !rejected ==> o' == o
    ensures o.result.Fail? ==> o' == o
    ensures rejected && o.result.Ok? ==> o'.result == Fail(Failure(SaveFailedMessage)) && o'.store == st && o'.events == []
  {
    if rejected && o.result.Ok? then Outcome(Fail(Failure(SaveFailedMessage)), st, []) else o
  }

  function Without(order: seq<Guid>, id: Guid): (r: seq<Guid>)
    ensures forall x :: x in r <==> x in order && x != id
    ensures |r| <= |order|
  {
    if order == [] then []
    else if order[0] == id then Without(order[1..], id)
    else [order[0]] + Without(order[1..], id)
  }

  function VotesNotOn(votes: set<Vote>, reviewId: Guid): (r: set<Vote>)
    ensures forall v :: v in r <==> v in votes && v.0 != reviewId
  {
    set v | v in votes && v.0 != reviewId
  }

  // ---------------------------------------------------------------------
  // Queries

  /** The filter shared by the three paged queries, on top of `!IsDeleted`. */
  datatype Query = AllReviews | ByAuthor(userId: Guid) | ByType(referenceType: ReferenceType)

  predicate Matches(q: Query, rec: ReviewRecord) {
    && !rec.isDeleted
    && match q
       case AllReviews => true
       case ByAuthor(userId) => rec.authorId == userId
       case ByType(t) => rec.referenceType == t
  }

  /** The rows a query selects, in row order. */
  function Rows(reviews: map<Guid, ReviewRecord>, order: seq<Guid>, q: Query): (rows: seq<ReviewRecord>)
    ensures |rows| <= |order|
    ensures forall k :: 0 <= k < |rows| ==> Matches(q, rows[k])
  {
    if order == [] then []
    else
      var rest := Rows(reviews, order[..|order| - 1], q);
      var id := order[|order| - 1];
      if id in reviews && Matches(q, reviews[id]) then rest + [reviews[id]] else rest
  }

  function Min(a: int, b: int): int {
    if a <= b then a else b
  }

  /** `Skip(skip).Take(take)` for a non-negative offset and limit. */
  function Page<T>(rows: seq<T>, skip: nat, take: nat): (page: seq<T>)
  {
    rows[Min(skip, |rows|)..Min(Min(skip, |rows|) + take, |rows|)]
  }

  function ToDTOs(rows: seq<ReviewRecord>): (dtos: seq<ReviewDTO>)
    ensures |dtos| == |rows|
    ensures forall k :: 0 <= k < |rows| ==> dtos[k] == RecordDTO(rows[k])
  {
    seq(|rows|, k requires 0 <= k < |rows| => RecordDTO(rows[k]))
  }

  /** The body shared by the three paged queries: the count of all selected
      rows, and the page at offset `(pageNumber - 1) * pageSize` (computed
      in 32-bit arithmetic), which the database refuses when the offset or
      the limit is negative; that refusal is caught and reported with the
      query's own prefix. */
  function PagedQuery(st: StoreState, q: Query, errorPrefix: string, pageNumber: int, pageSize: int): (r: Result<PagedResult>)
    requires IsInt32(pageNumber) && IsInt32(pageSize)
  {
    var skip := Wrap32((pageNumber - 1) * pageSize);
    if skip < 0 then Fail(Failure(errorPrefix + NegativeOffsetMessage))
    else if pageSize < 0 then Fail(Failure(errorPrefix + NegativeLimitMessage))
    else
      var rows := Rows(st.reviews, st.order, q);
      Ok(PagedResult(ToDTOs(Page(rows, skip, pageSize)), |rows|, pageNumber, pageSize))
  }

  /** The successful shape of a paged query: the total counts every selected
      row, the page is the slice of the selected rows at the (32-bit) offset,
      of length at most `pageSize`, and the request is echoed back. */
  predicate PageOf(st: StoreState, q: Query, pageNumber: int, pageSize: int, r: PagedResult)
    requires IsInt32(pageNumber) && IsInt32(pageSize)
    requires 0 <= Wrap32((pageNumber - 1) * pageSize) && 0 <= pageSize
  {
    var rows := Rows(st.reviews, st.order, q);
    var skip := Wrap32((pageNumber - 1) * pageSize);
    && r.totalCount == |rows|
    && r.pageNumber == pageNumber && r.pageSize == pageSize
    && |r.data| <= pageSize
    && (skip + pageSize <= |rows| ==> |r.data| == pageSize)
    && (skip <= |rows| ==> |r.data| == Min(pageSize, |rows| - skip))
    && (skip >= |rows| ==> r.data == [])
    && forall k :: 0 <= k < |r.data| ==> r.data[k] == RecordDTO(rows[skip + k])
  }

  function GetReviewsAsync(st: StoreState, pageNumber: int, pageSize: int): (r: Result<PagedResult>)
    requires IsInt32(pageNumber) && IsInt32(pageSize)
    ensures r.Ok? <==> 0 <= Wrap32((pageNumber - 1) * pageSize) && 0 <= pageSize
    ensures r.Ok? ==> PageOf(st, AllReviews, pageNumber, pageSize, r.value)
  {
    PagedQuery(st, AllReviews, "Error retrieving reviews: ", pageNumber, pageSize)
  }

  function GetUserReviewsAsync(st: StoreState, userId: Guid, pageNumber: int, pageSize: int): (r: Result<PagedResult>)
    requires IsInt32(pageNumber) && IsInt32(pageSize)
    ensures r.Ok? <==> 0 <= Wrap32((pageNumber - 1) * pageSize) && 0 <= pageSize
    ensures r.Ok? ==> PageOf(st, ByAuthor(userId), pageNumber, pageSize, r.value)
  {
    PagedQuery(st, ByAuthor(userId), "Error retrieving user reviews: ", pageNumber, pageSize)
  }

  function GetReviewsForTypeAsync(st: StoreState, referenceType: ReferenceType, pageNumber: int, pageSize: int): (r: Result<PagedResult>)
    requires IsInt32(pageNumber) && IsInt32(pageSize)
    ensures r.Ok? <==> 0 <= Wrap32((pageNumber - 1) * pageSize) && 0 <= pageSize
    ensures r.Ok? ==> PageOf(st, ByType(referenceType), pageNumber, pageSize, r.value)
  {
    PagedQuery(st, ByType(referenceType), "Error retrieving reviews for type: ", pageNumber, pageSize)
  }

  /** Looks a row up by id; deleted rows are not filtered out. */
  function GetReviewByIdAsync(st: StoreState, reviewId: Guid): (r: Result<ReviewDTO>)
    ensures r.Ok? <==> reviewId in st.reviews
    ensures r.Ok? ==> r.value == RecordDTO(st.reviews[reviewId])
    ensures r.Fail? ==> r.error == Failure(NotFoundMessage)
  {
    if reviewId in st.reviews then Ok(RecordDTO(st.reviews[reviewId])) else Fail(Failure(NotFoundMessage))
  }

  // ---------------------------------------------------------------------
  // The service

  class ReviewService {
    var reviews: map<Guid, ReviewRecord>
    var order: seq<Guid>
    var likes: set<Vote>
    var dislikes: set<Vote>
    /** Whether the request's database context still tracks a row that a
        failed save could not write (see `WithRejectedRow`). */
    var rejected: bool
    const publisher: EventPublisher

    function State(): StoreState
      reads this
    {
      StoreState(reviews, order, likes, dislikes)
    }

    ghost predicate Valid()
      reads this
    {
      WellFormed(State())
    }

    constructor (publisher: EventPublisher)
      ensures State() == StoreState(map[], [], {}, {}) && Valid()
      ensures !rejected && this.publisher == publisher
    {
      rejected := false;
      reviews := map[];
      order := [];
      likes := {};
      dislikes := {};
      this.publisher := publisher;
    }

    method CreateReviewAsync(request: CreateReviewRequest, newId: Guid) returns (r: Result<ReviewDTO>)
      requires Valid()
      modifies this, publisher
      ensures Valid()
      ensures var o := WithRejectedRow(CreateOutcome(old(State()), request, newId), old(State()), old(rejected));
                r == o.result && State() == o.store && publisher.sent == old(publisher.sent) + o.events
      ensures rejected == (old(rejected) || r.Fail?)
    {
      var user := User(request.authorId, request.authorName);
      var domainReview := new Review.Create(user, request.content, request.rating, request.referenceId, newId);
      var rec := ReviewToRecord(domainReview);
      var clash := newId in reviews || exists id :: id in reviews && Key(reviews[id]) == Key(rec);
      if clash || rejected {
        rejected := true;
        return Fail(Failure(SaveFailedMessage));
      }
      CreatePreservesWellFormed(State(), request, newId);
      reviews := reviews[newId := rec];
      order := order + [newId];
      PublishEventAsync(publisher, domainReview);
      r := Ok(ReviewToDTO(domainReview));
    }

    method DeleteReviewAsync(deleter: Guid, reviewId: Guid) returns (r: Result<()>)
      requires Valid()
      modifies this
      ensures Valid()
      ensures var o := WithRejectedRow(DeleteOutcome(old(State()), deleter, reviewId), old(State()), old(rejected));
                r == o.result && State() == o.store
      ensures rejected == old(rejected)
    {
      if reviewId !in reviews {
        return Fail(Failure(NotFoundMessage));
      }
      if deleter != reviews[reviewId].authorId {
        return Fail(Error(UnauthorizedDeleteMessage, UnauthorizedAccess));
      }
      if rejected {
        return Fail(Failure(SaveFailedMessage));
      }
      DeletePreservesWellFormed(State(), deleter, reviewId);
      reviews := reviews - {reviewId};
      order := Without(order, reviewId);
      likes := VotesNotOn(likes, reviewId);
      dislikes := VotesNotOn(dislikes, reviewId);
      r := Ok(());
    }

    method LikeReviewAsync(reviewId: Guid, userId: Guid) returns (r: Result<()>)
      requires Valid()
      modifies this, publisher
      ensures Valid()
      ensures var o := WithRejectedRow(LikeOutcome(old(State()), reviewId, userId), old(State()), old(rejected));
                r == o.result && State() == o.store && publisher.sent == old(publisher.sent) + o.events
      ensures rejected == old(rejected)
    {
      if reviewId !in reviews {
        return Fail(Failure(NotFoundMessage));
      }
      var rec := reviews[reviewId];
      var domainReview := new Review.Mapped(rec.id, rec.authorId, rec.content, rec.rating,
                                            rec.likes, rec.dislikes, rec.referenceId, rec.referenceType);
      if rejected {
        return Fail(Failure(SaveFailedMessage));
      }
      if (reviewId, userId) in likes {
        likes := likes - {(reviewId, userId)};
        return Ok(());
      }
      var _ := domainReview.AddLike(userId);
      likes := likes + {(reviewId, userId)};
      PublishEventAsync(publisher, domainReview);
      r := Ok(());
    }

    method DislikeReviewAsync(reviewId: Guid, userId: Guid) returns (r: Result<()>)
      requires Valid()
      modifies this, publisher
      ensures Valid()
      ensures var o := WithRejectedRow(DislikeOutcome(old(State()), reviewId, userId), old(State()), old(rejected));
                r == o.result && State() == o.store && publisher.sent == old(publisher.sent) + o.events
      ensures rejected == old(rejected)
    {
      if reviewId !in reviews {
        return Fail(Failure(NotFoundMessage));
      }
      var rec := reviews[reviewId];
      var domainReview := new Review.Mapped(rec.id, rec.authorId, rec.content, rec.rating,
                                            rec.likes, rec.dislikes, rec.referenceId, rec.referenceType);
      if rejected {
        return Fail(Failure(SaveFailedMessage));
      }
      if (reviewId, userId) in dislikes {
        dislikes := dislikes - {(reviewId, userId)};
        return Ok(());
      }
      var _ := domainReview.AddDislike(userId);
      dislikes := dislikes + {(reviewId, userId)};
      PublishEventAsync(publisher, domainReview);
      r := Ok(());
    }

    method UpdateReviewAsync(updater: Guid, request: UpdateReviewRequest) returns (r: Result<ReviewDTO>)
      requires Valid()
      modifies publisher
      ensures Valid()
      ensures var o := WithRejectedRow(UpdateOutcome(old(State()), updater, request), old(State()), old(rejected));
                r == o.result && State() == o.store && publisher.sent == old(publisher.sent) + o.events
    {
      if request.reviewId !in reviews {
        return Fail(Failure(NotFoundMessage));
      }
      var rec := reviews[request.reviewId];
      if updater != rec.authorId {
        return Fail(Error(UnauthorizedUpdateMessage, UnauthorizedAccess));
      }
      if rejected {
        return Fail(Failure(SaveFailedMessage));
      }
      var domainReview := new Review.Mapped(rec.id, rec.authorId, rec.content, rec.rating,
                                            rec.likes, rec.dislikes, rec.referenceId, rec.referenceType);
      var _ := domainReview.UpdateContent(request.content);
      var _ := domainReview.UpdateRating(request.rating);
      PublishEventAsync(publisher, domainReview);
      r := Ok(ReviewToDTO(domainReview));
    }
  }

  // ---------------------------------------------------------------------
  // Properties of the operations

  lemma CreatePreservesWellFormed(st: StoreState, request: CreateReviewRequest, newId: Guid)
    requires WellFormed(st)
    ensures WellFormed(CreateOutcome(st, request, newId).store)
  {
    var o := CreateOutcome(st, request, newId);
    if o.result.Ok? {
      var order' := o.store.order;
      forall i, j | 0 <= i < j < |order'| ensures order'[i] != order'[j] {
        if j == |order'| - 1 {
          assert order'[i] == st.order[i];
          assert st.order[i] in st.reviews;
        }
      }
    }
  }

  lemma {:induction false} WithoutDistinct(order: seq<Guid>, id: Guid)
    requires Distinct(order)
    ensures Distinct(Without(order, id))
  {
    if order != [] {
      assert Distinct(order[1..]) by {
        forall i, j | 0 <= i < j < |order[1..]| ensures order[1..][i] != order[1..][j] {
          assert order[1..][i] == order[i + 1] && order[1..][j] == order[j + 1];
        }
      }
      WithoutDistinct(order[1..], id);
      if order[0] != id {
        var rest := Without(order[1..], id);
        assert order[0] !in order[1..] by {
          forall k | 0 <= k < |order[1..]| ensures order[1..][k] != order[0] {
            assert order[1..][k] == order[k + 1];
          }
        }
        assert order[0] !in rest;
        var r := [order[0]] + rest;
        forall i, j | 0 <= i < j < |r| ensures r[i] != r[j] {
          assert r[j] == rest[j - 1];
          if i > 0 {
            assert r[i] == rest[i - 1];
          }
        }
      }
    }
  }

  lemma DeletePreservesWellFormed(st: StoreState, deleter: Guid, reviewId: Guid)
    requires WellFormed(st)
    ensures WellFormed(DeleteOutcome(st, deleter, reviewId).store)
  {
    WithoutDistinct(st.order, reviewId);
  }

  /** Create, as the store sees it: it succeeds exactly when the new id is
      unused and the author has no review of the same reference under the
      default reference type; success adds that one row, stored with the
      default type, and publishes one creation event; failure changes nothing. */
  lemma CreateSemantics(st: StoreState, request: CreateReviewRequest, newId: Guid)
    ensures var o := CreateOutcome(st, request, newId);
      && (o.result.Ok? <==>
            newId !in st.reviews
            && forall id :: id in st.reviews ==>
                 Key(st.reviews[id]) != (request.authorId, request.referenceId, DefaultReferenceType))
      && (o.result.Ok? ==>
            && o.store.reviews.Keys == st.reviews.Keys + {newId}
            && o.store.reviews[newId] == ReviewRecord(newId, request.authorId, request.content, request.rating,
                                                      0, 0, request.referenceId, DefaultReferenceType, false)
            && (forall id :: id in st.reviews ==> o.store.reviews[id] == st.reviews[id])
            && o.store.likes == st.likes && o.store.dislikes == st.dislikes
            && o.result.value.referenceType == DefaultReferenceType
            && o.events == [ReviewCreated(request.authorId, newId, request.content, request.rating, request.referenceId)])
      && (o.result.Fail? ==> o.store == st && o.events == [] && o.result.error == Failure(SaveFailedMessage))
  {
  }

  /** The requested reference type never reaches the store. */
  lemma CreateIgnoresRequestedType(st: StoreState, request: CreateReviewRequest, newId: Guid, t: ReferenceType)
    ensures CreateOutcome(st, request.(referenceType := t), newId) == CreateOutcome(st, request, newId)
  {
  }

  /** The unique index at work: once an author's review of a reference is
      stored, a second one for the same reference fails whatever type it
      asks for, and leaves the store as it was. */
  lemma SecondReviewOfSameReferenceFails(st: StoreState, first: CreateReviewRequest, id1: Guid,
                                         second: CreateReviewRequest, id2: Guid)
    requires CreateOutcome(st, first, id1).result.Ok?
    requires second.authorId == first.authorId && second.referenceId == first.referenceId
    ensures var st1 := CreateOutcome(st, first, id1).store;
      && CreateOutcome(st1, second, id2).result == Fail(Failure(SaveFailedMessage))
      && CreateOutcome(st1, second, id2).store == st1
  {
    var st1 := CreateOutcome(st, first, id1).store;
    assert Key(st1.reviews[id1]) == (second.authorId, second.referenceId, DefaultReferenceType);
  }

  /** A created review is found by its id, with the DTO the create returned. */
  lemma CreatedReviewIsFound(st: StoreState, request: CreateReviewRequest, newId: Guid)
    requires CreateOutcome(st, request, newId).result.Ok?
    ensures GetReviewByIdAsync(CreateOutcome(st, request, newId).store, newId) == CreateOutcome(st, request, newId).result
  {
  }

  /** Delete: not-found and unauthorised leave the store unchanged, the
      latter with the unauthorised-access cause; otherwise the row and every
      vote on it are gone, and every other row and vote stays. */
  lemma DeleteSemantics(st: StoreState, deleter: Guid, reviewId: Guid)
    ensures var o := DeleteOutcome(st, deleter, reviewId);
      && (reviewId !in st.reviews ==> o.result == Fail(Failure(NotFoundMessage)) && o.store == st)
      && (reviewId in st.reviews && deleter != st.reviews[reviewId].authorId ==>
            o.result.Fail? && o.result.error.cause == UnauthorizedAccess
            && o.result.error.message == UnauthorizedDeleteMessage && o.store == st)
      && (o.result.Ok? <==> reviewId in st.reviews && deleter == st.reviews[reviewId].authorId)
      && (o.result.Ok? ==>
            && o.store.reviews.Keys == st.reviews.Keys - {reviewId}
            && (forall id :: id in o.store.reviews ==> o.store.reviews[id] == st.reviews[id])
            && (forall v :: v in o.store.likes <==> v in st.likes && v.0 != reviewId)
            && (forall v :: v in o.store.dislikes <==> v in st.dislikes && v.0 != reviewId))
      && o.events == []
  {
  }

  lemma DeletedReviewIsNotFound(st: StoreState, deleter: Guid, reviewId: Guid)
    requires DeleteOutcome(st, deleter, reviewId).result.Ok?
    ensures GetReviewByIdAsync(DeleteOutcome(st, deleter, reviewId).store, reviewId) == Fail(Failure(NotFoundMessage))
  {
  }

  /** Like toggles the `(reviewId, userId)` row: publishes a like event exactly
      when it adds the row, and touches neither the reviews nor the dislikes. */
  lemma LikeSemantics(st: StoreState, reviewId: Guid, userId: Guid)
    ensures var o := LikeOutcome(st, reviewId, userId);
      && (o.result.Ok? <==> reviewId in st.reviews)
      && (o.result.Fail? ==> o.result.error == Failure(NotFoundMessage) && o.store == st && o.events == [])
      && (o.result.Ok? ==> o.store.likes == Toggle(st.likes, (reviewId, userId)))
      && o.store.reviews == st.reviews && o.store.order == st.order && o.store.dislikes == st.dislikes
      && (o.events != [] <==> o.result.Ok? && (reviewId, userId) !in st.likes)
      && (o.events != [] ==> o.events == [LikeAdded(reviewId, userId)])
  {
  }

  lemma DislikeSemantics(st: StoreState, reviewId: Guid, userId: Guid)
    ensures var o := DislikeOutcome(st, reviewId, userId);
      && (o.result.Ok? <==> reviewId in st.reviews)
      && (o.result.Fail? ==> o.result.error == Failure(NotFoundMessage) && o.store == st && o.events == [])
      && (o.result.Ok? ==> o.store.dislikes == Toggle(st.dislikes, (reviewId, userId)))
      && o.store.reviews == st.reviews && o.store.order == st.order && o.store.likes == st.likes
      && (o.events != [] <==> o.result.Ok? && (reviewId, userId) !in st.dislikes)
      && (o.events != [] ==> o.events == [DislikeAdded(reviewId, userId)])
  {
  }

  /** Liking twice restores the store, and exactly one of the two calls
      publishes; the same holds for disliking. */
  lemma {:induction false} LikeTwiceRestores(st: StoreState, reviewId: Guid, userId: Guid)
    ensures var st1 := LikeOutcome(st, reviewId, userId).store;
      && LikeOutcome(st1, reviewId, userId).store == st
      && |LikeOutcome(st, reviewId, userId).events + LikeOutcome(st1, reviewId, userId).events|
           == (if reviewId in st.reviews then 1 else 0)
  {
    LikeSemantics(st, reviewId, userId);
    var st1 := LikeOutcome(st, reviewId, userId).store;
    LikeSemantics(st1, reviewId, userId);
    if reviewId in st.reviews {
      ToggleTwice(st.likes, (reviewId, userId));
    }
  }

  lemma {:induction false} DislikeTwiceRestores(st: StoreState, reviewId: Guid, userId: Guid)
    ensures var st1 := DislikeOutcome(st, reviewId, userId).store;
      && DislikeOutcome(st1, reviewId, userId).store == st
      && |DislikeOutcome(st, reviewId, userId).events + DislikeOutcome(st1, reviewId, userId).events|
           == (if reviewId in st.reviews then 1 else 0)
  {
    DislikeSemantics(st, reviewId, userId);
    var st1 := DislikeOutcome(st, reviewId, userId).store;
    DislikeSemantics(st1, reviewId, userId);
    if reviewId in st.reviews {
      ToggleTwice(st.dislikes, (reviewId, userId));
    }
  }

  lemma LikePreservesWellFormed(st: StoreState, reviewId: Guid, userId: Guid)
    requires WellFormed(st)
    ensures WellFormed(LikeOutcome(st, reviewId, userId).store)
    ensures WellFormed(DislikeOutcome(st, reviewId, userId).store)
  {
  }

  /** Update never changes the store; on success it returns the stored
      content with the requested rating and publishes one event per field
      that differs, content first. */
  lemma UpdateSemantics(st: StoreState, updater: Guid, request: UpdateReviewRequest)
    ensures var o := UpdateOutcome(st, updater, request);
      && o.store == st
      && (request.reviewId !in st.reviews ==> o.result == Fail(Failure(NotFoundMessage)) && o.events == [])
      && (request.reviewId in st.reviews && updater != st.reviews[request.reviewId].authorId ==>
            o.result == Fail(Error(UnauthorizedUpdateMessage, UnauthorizedAccess)) && o.events == [])
      && (o.result.Ok? ==>
            var rec := st.reviews[request.reviewId];
            && updater == rec.authorId
            && o.result.value.content == rec.content
            && o.result.value.rating == request.rating
            && |o.events| == (if request.content != rec.content then 1 else 0) + (if request.rating != rec.rating then 1 else 0))
  {
  }

  // ---------------------------------------------------------------------
  // Properties of the queries

  lemma {:induction false} RowsHas(reviews: map<Guid, ReviewRecord>, order: seq<Guid>, q: Query, rec: ReviewRecord)
    ensures rec in Rows(reviews, order, q) <==>
              exists i :: 0 <= i < |order| && order[i] in reviews && reviews[order[i]] == rec && Matches(q, rec)
  {
    if order != [] {
      var pre := order[..|order| - 1];
      RowsHas(reviews, pre, q, rec);
      if rec in Rows(reviews, order, q) {
        if rec in Rows(reviews, pre, q) {
          var i :| 0 <= i < |pre| && pre[i] in reviews && reviews[pre[i]] == rec && Matches(q, rec);
          assert order[i] == pre[i];
        } else {
          assert order[|order| - 1] in reviews && reviews[order[|order| - 1]] == rec;
        }
      }
      if exists i :: 0 <= i < |order| && order[i] in reviews && reviews[order[i]] == rec && Matches(q, rec) {
        var i :| 0 <= i < |order| && order[i] in reviews && reviews[order[i]] == rec && Matches(q, rec);
        if i < |pre| {
          assert pre[i] == order[i];
        }
      }
    }
  }

  /** A query selects exactly the stored rows that match its filter. */
  lemma RowsMembership(st: StoreState, q: Query, rec: ReviewRecord)
    requires WellFormed(st)
    ensures rec in Rows(st.reviews, st.order, q) <==>
              rec.id in st.reviews && st.reviews[rec.id] == rec && Matches(q, rec)
  {
    RowsHas(st.reviews, st.order, q, rec);
    if rec.id in st.reviews && st.reviews[rec.id] == rec && Matches(q, rec) {
      assert rec.id in st.order;
      var i :| 0 <= i < |st.order| && st.order[i] == rec.id;
    }
  }

  lemma {:induction false} RowsAllMatch(reviews: map<Guid, ReviewRecord>, order: seq<Guid>, q: Query)
    requires forall i :: 0 <= i < |order| ==> order[i] in reviews && Matches(q, reviews[order[i]])
    ensures |Rows(reviews, order, q)| == |order|
  {
    if order != [] {
      var pre := order[..|order| - 1];
      assert forall i :: 0 <= i < |pre| ==> pre[i] == order[i];
      RowsAllMatch(reviews, pre, q);
    }
  }

  lemma {:induction false} DistinctCount(order: seq<Guid>, keys: set<Guid>)
    requires Distinct(order)
    requires forall id :: id in keys <==> id in order
    ensures |keys| == |order|
  {
    if order != [] {
      var x := order[|order| - 1];
      var pre := order[..|order| - 1];
      assert x !in pre by {
        forall k | 0 <= k < |pre| ensures pre[k] != x {
          assert pre[k] == order[k];
        }
      }
      forall id ensures id in keys - {x} <==> id in pre {
        if id in order && id != x {
          var k :| 0 <= k < |order| && order[k] == id;
          assert k < |pre| && pre[k] == id;
        }
      }
      assert Distinct(pre) by {
        forall i, j | 0 <= i < j < |pre| ensures pre[i] != pre[j] {
          assert pre[i] == order[i] && pre[j] == order[j];
        }
      }
      DistinctCount(pre, keys - {x});
    }
  }

  /** The stored rows among `order` that a query selects, as a set of ids. */
  function SelectedIds(reviews: map<Guid, ReviewRecord>, order: seq<Guid>, q: Query): (ids: set<Guid>)
    ensures forall id :: id in ids <==> id in order && id in reviews && Matches(q, reviews[id])
  {
    set id | id in order && id in reviews && Matches(q, reviews[id])
  }

  /** Without repeated ids, a query selects one row per matching id. */
  lemma {:induction false} RowsCount(reviews: map<Guid, ReviewRecord>, order: seq<Guid>, q: Query)
    requires Distinct(order)
    ensures |Rows(reviews, order, q)| == |SelectedIds(reviews, order, q)|
  {
    if order != [] {
      var x := order[|order| - 1];
      var pre := order[..|order| - 1];
      assert Distinct(pre) by {
        forall i, j | 0 <= i < j < |pre| ensures pre[i] != pre[j] {
          assert pre[i] == order[i] && pre[j] == order[j];
        }
      }
      assert x !in pre by {
        forall k | 0 <= k < |pre| ensures pre[k] != x {
          assert pre[k] == order[k];
        }
      }
      RowsCount(reviews, pre, q);
      forall id ensures id in order <==> id in pre || id == x {
        if id in order && id != x {
          var k :| 0 <= k < |order| && order[k] == id;
          assert k < |pre| && pre[k] == id;
        }
      }
      if x in reviews && Matches(q, reviews[x]) {
        assert SelectedIds(reviews, order, q) == SelectedIds(reviews, pre, q) + {x};
      } else {
        assert SelectedIds(reviews, order, q) == SelectedIds(reviews, pre, q);
      }
    }
  }

  /** What a page holds, whatever order the rows are read in: the total is
      the number of stored rows matching the query, the page is no longer
      than the limit, and each entry is a stored row that matches. */
  lemma PageHoldsMatchingRows(st: StoreState, q: Query, errorPrefix: string, pageNumber: int, pageSize: int)
    requires WellFormed(st)
    requires IsInt32(pageNumber) && IsInt32(pageSize)
    ensures var r := PagedQuery(st, q, errorPrefix, pageNumber, pageSize);
            r.Ok? ==>
              && r.value.totalCount == |set id | id in st.reviews && Matches(q, st.reviews[id])|
              && |r.value.data| <= pageSize
              && forall k :: 0 <= k < |r.value.data| ==>
                   exists id :: id in st.reviews && Matches(q, st.reviews[id]) && r.value.data[k] == RecordDTO(st.reviews[id])
  {
    var r := PagedQuery(st, q, errorPrefix, pageNumber, pageSize);
    if r.Ok? {
      var rows := Rows(st.reviews, st.order, q);
      RowsCount(st.reviews, st.order, q);
      assert SelectedIds(st.reviews, st.order, q) == set id | id in st.reviews && Matches(q, st.reviews[id]);
      var skip := Wrap32((pageNumber - 1) * pageSize);
      forall k | 0 <= k < |r.value.data|
        ensures exists id :: id in st.reviews && Matches(q, st.reviews[id]) && r.value.data[k] == RecordDTO(st.reviews[id])
      {
        var rec := rows[Min(skip, |rows|) + k];
        assert r.value.data[k] == RecordDTO(rec);
        RowsMembership(st, q, rec);
        assert st.reviews[rec.id] == rec;
      }
    }
  }

  /** With no deleted rows, `GetReviewsAsync` counts every stored review. */
  lemma TotalCountIsStoreSize(st: StoreState, pageNumber: int, pageSize: int)
    requires WellFormed(st)
    requires forall id :: id in st.reviews ==> !st.reviews[id].isDeleted
    requires IsInt32(pageNumber) && IsInt32(pageSize)
    requires GetReviewsAsync(st, pageNumber, pageSize).Ok?
    ensures GetReviewsAsync(st, pageNumber, pageSize).value.totalCount == |st.reviews|
  {
    RowsAllMatch(st.reviews, st.order, AllReviews);
    DistinctCount(st.order, st.reviews.Keys);
  }

  /** Fifteen live reviews, page 1 of size 10: ten items and a total of
      fifteen; an empty store: no items and a total of zero. */
  lemma PagingExamples(st: StoreState)
    requires WellFormed(st) && |st.reviews| == 15
    requires forall id :: id in st.reviews ==> !st.reviews[id].isDeleted
    ensures GetReviewsAsync(st, 1, 10).Ok?
    ensures |GetReviewsAsync(st, 1, 10).value.data| == 10 && GetReviewsAsync(st, 1, 10).value.totalCount == 15
    ensures GetReviewsAsync(StoreState(map[], [], {}, {}), 1, 10) == Ok(PagedResult([], 0, 1, 10))
  {
    TotalCountIsStoreSize(st, 1, 10);
  }

  /** Consecutive pages of a positive size cover the selected rows: the row
      at `offset + m` (with `m < pageSize`), where `offset` is the page's
      offset `(pageNumber - 1) * pageSize`, is item `m` of that page. */
  lemma PageCovers(st: StoreState, q: Query, pageNumber: int, pageSize: int, offset: nat, m: nat)
    requires IsInt32(pageNumber) && IsInt32(pageSize) && m < pageSize
    requires offset == (pageNumber - 1) * pageSize && IsInt32(offset + pageSize)
    requires offset + m < |Rows(st.reviews, st.order, q)|
    ensures var r := PagedQuery(st, q, "", pageNumber, pageSize);
      && r.Ok? && m < |r.value.data|
      && r.value.data[m] == RecordDTO(Rows(st.reviews, st.order, q)[offset + m])
  {
    var rows := Rows(st.reviews, st.order, q);
    assert Wrap32((pageNumber - 1) * pageSize) == offset;
    var page := Page(rows, offset, pageSize);
    assert m < |page| && page[m] == rows[offset + m];
    assert PagedQuery(st, q, "", pageNumber, pageSize) == Ok(PagedResult(ToDTOs(page), |rows|, pageNumber, pageSize));
  }
}
