/** The review aggregate: `BaseEntity` (an identifier fixed at construction),
    `BaseAggregateRoot` (an append-only list of pending domain events) and
    `Review` itself. Dafny has no class inheritance here, so the aggregate
    root's list and its two operations are members of `Review`, the only
    aggregate of the core. */
module Domain {
  import opened Wrappers

  /** A `System.Guid`; identifiers are only ever compared for equality. */
  type Guid = nat

  datatype User = User(id: Guid, name: string)

  datatype ReferenceType = Movie | TV

  /** The value a `ReferenceType` property holds when nothing assigns it: the
      enumeration's first member (assumed to be `Movie`). */
  const DefaultReferenceType: ReferenceType := Movie

  /** The domain events of the core, one constructor per event record.
      Ratings are `double` in the source and `real` here. */
  datatype DomainEvent =
    | ReviewCreated(userId: Guid, reviewId: Guid, content: string, rating: real, referenceId: string)
    | ReviewRatingUpdated(userId: Guid, reviewId: Guid, newRating: real)
    | ReviewContentUpdated(userId: Guid, reviewId: Guid, newContent: string)
    | LikeAdded(reviewId: Guid, userId: Guid)
    | DislikeAdded(reviewId: Guid, userId: Guid)

  class Review {
    /** `BaseEntity.Id`: init-only. */
    const id: Guid
    var author: User
    var content: string
    var rating: real
    var likes: int
    var dislikes: int
    /** Init-only in the source, so constant here. */
    const referenceId: string
    const referenceType: ReferenceType
    /** `BaseAggregateRoot.domainEvents`, oldest first. */
    var domainEvents: seq<DomainEvent>

    /** `Review.Create`: the private constructor followed by recording the
        creation event. The identifier `newId` stands for `Guid.NewGuid()`;
        the reference type is not a parameter, so it keeps its default. */
    constructor Create(author: User, content: string, rating: real, refId: string, newId: Guid)
      ensures this.id == newId && this.author == author && this.content == content
      ensures this.rating == rating && likes == 0 && dislikes == 0
      ensures referenceId == refId && referenceType == DefaultReferenceType
      ensures domainEvents == [ReviewCreated(author.id, newId, content, rating, refId)]
    {
      this.id := newId;
      this.author := author;
      this.content := content;
      this.rating := rating;
      this.likes := 0;
      this.dislikes := 0;
      this.referenceId := refId;
      this.referenceType := DefaultReferenceType;
      this.domainEvents := [];
      new;
      AddDomainEvent(ReviewCreated(author.id, newId, content, rating, refId));
    }

    /** The parameterless constructor the object mapper uses, followed by the
        mapper copying a stored row's fields in: no pending events. */
    constructor Mapped(id: Guid, authorId: Guid, content: string, rating: real,
                       likes: int, dislikes: int, refId: string, refType: ReferenceType)
      ensures this.id == id && author == User(authorId, "") && this.content == content
      ensures this.rating == rating && this.likes == likes && this.dislikes == dislikes
      ensures referenceId == refId && referenceType == refType
      ensures domainEvents == []
    {
      this.id := id;
      this.author := User(authorId, "");
      this.content := content;
      this.rating := rating;
      this.likes := likes;
      this.dislikes := dislikes;
      this.referenceId := refId;
      this.referenceType := refType;
      this.domainEvents := [];
    }

    /** `DomainEvents`: exactly the pending list, in insertion order. */
    function DomainEvents(): (events: seq<DomainEvent>)
      reads this
      ensures events == domainEvents
    {
      domainEvents
    }

    /** `AddDomainEvent`: appends at the end and leaves earlier events alone. */
    method AddDomainEvent(e: DomainEvent)
      modifies this`domainEvents
      ensures domainEvents == old(domainEvents) + [e]
      ensures |domainEvents| == |old(domainEvents)| + 1
      ensures domainEvents[..|old(domainEvents)|] == old(domainEvents)
    {
      domainEvents := domainEvents + [e];
    }

    /** `ClearDomainEvents`. */
    method ClearDomainEvents()
      modifies this`domainEvents
      ensures domainEvents == []
    {
      domainEvents := [];
    }

    /** `UpdateRating`: a no-op returning null when the rating is unchanged;
        otherwise assigns it and records and returns one event. */
    method UpdateRating(newRating: real) returns (e: Option<DomainEvent>)
      modifies this`rating, this`domainEvents
      ensures old(rating) == newRating ==>
                e == None && rating == old(rating) && domainEvents == old(domainEvents)
      ensures old(rating) != newRating ==>
                && rating == newRating
                && e == Some(ReviewRatingUpdated(author.id, id, newRating))
                && domainEvents == old(domainEvents) + [e.value]
    {
      if rating == newRating {
        return None;
      }
      rating := newRating;
      var event := ReviewRatingUpdated(author.id, id, newRating);
      AddDomainEvent(event);
      e := Some(event);
    }

    /** `UpdateContent`: a no-op returning null when the content is unchanged;
        otherwise records and returns one event. As written it does not assign
        `Content`, which keeps its old value either way. */
    method UpdateContent(newContent: string) returns (e: Option<DomainEvent>)
      modifies this`domainEvents
      ensures old(content) == newContent ==> e == None && domainEvents == old(domainEvents)
      ensures old(content) != newContent ==>
                && e == Some(ReviewContentUpdated(author.id, id, newContent))
                && domainEvents == old(domainEvents) + [e.value]
    {
      if content == newContent {
        return None;
      }
      var event := ReviewContentUpdated(author.id, id, newContent);
      AddDomainEvent(event);
      e := Some(event);
    }

    /** `AddLike`: always records one event; the `Likes` counter is untouched. */
    method AddLike(userId: Guid) returns (e: DomainEvent)
      modifies this`domainEvents
      ensures e == LikeAdded(id, userId)
      ensures domainEvents == old(domainEvents) + [e]
    {
      e := LikeAdded(id, userId);
      AddDomainEvent(e);
    }

    /** `AddDislike`: always records one event; the `Dislikes` counter is untouched. */
    method AddDislike(userId: Guid) returns (e: DomainEvent)
      modifies this`domainEvents
      ensures e == DislikeAdded(id, userId)
      ensures domainEvents == old(domainEvents) + [e]
    {
      e := DislikeAdded(id, userId);
      AddDomainEvent(e);
    }
  }

  /** What a caller can rely on from the contracts alone: setting the same
      rating a second time records nothing more, the two calls together
      record at most the one event of the first change, and neither call
      touches the author, the content or the counters. */
  method UpdateTwice(r: Review, x: real) returns (first: Option<DomainEvent>, second: Option<DomainEvent>)
    modifies r
    ensures second == None
    ensures r.rating == x
    ensures r.domainEvents == old(r.domainEvents)
                              + (if old(r.rating) != x then [ReviewRatingUpdated(r.author.id, r.id, x)] else [])
    ensures first.Some? <==> old(r.rating) != x
    ensures r.author == old(r.author) && r.content == old(r.content)
    ensures r.likes == old(r.likes) && r.dislikes == old(r.dislikes)
  {
    first := r.UpdateRating(x);
    second := r.UpdateRating(x);
  }
}
